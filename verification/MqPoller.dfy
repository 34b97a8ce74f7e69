/** The RabbitMQ and ActiveMQ pollers: deliveries are pushed, taken in batches and
    each acknowledged or negatively acknowledged. The two differ in that an
    ActiveMQ message is queued only once its body has been read. */
module MqPoller {
  import opened Numbers
  import opened Sequences
  import opened BatchFailures

  /** The `tag`-th delivery on the connection; `id` is what a response names it by,
      the delivery tag or the message id. */
  datatype Delivery = Delivery(tag: nat, id: Id)

  datatype Settlement = Settlement(tag: nat, acked: bool)

  /** Where the poll loop is suspended: parked or about to look, filling a batch
      window, holding out an event, or done. */
  datatype Phase = Top | Window | Held(event: nat) | Ended(failed: bool)

  /** `arrived` lists the deliveries in the order they were queued, `batches` what
      each event took, `settled` the acks and nacks sent, `unread` the deliveries
      whose body could not be read. */
  datatype Queue = Queue(batchSize: nat, count: nat, reading: map<nat, Id>, arrived: seq<Delivery>,
                         pending: seq<Delivery>, batches: seq<seq<Delivery>>, inflight: map<nat, seq<Delivery>>,
                         aborted: bool, failure: bool, phase: Phase,
                         settled: seq<Settlement>, unread: seq<nat>)

  /** What can happen next, in any order: a message is delivered (RabbitMQ, or
      ActiveMQ with its body still to be read), the consumer fails, the signal is
      aborted, an event is acknowledged, or the loop runs on to its next wait. */
  datatype Event =
    | Consume(id: Id)
    | Subscribe(id: Id)
    | BodyRead(tag: nat)
    | BodyFailed(tag: nat)
    | Fail
    | Abort
    | Acknowledge(event: nat, response: Response)
    | Pass

  // ---- Steps ----

  function Begin(batchSize: nat): Queue {
    Queue(batchSize, 0, map[], [], [], [], map[], false, false, Top, [], [])
  }

  function Enqueue(q: Queue, d: Delivery): Queue {
    q.(arrived := q.arrived + [d], pending := q.pending + [d])
  }

  function Ids(taken: seq<Delivery>): set<Id> {
    set d | d in taken :: d.id
  }

  /** One settlement per delivery, in order: a nack exactly for those that failed. */
  function Settlements(taken: seq<Delivery>, failed: set<Id>): seq<Settlement> {
    if taken == [] then [] else [Settlement(taken[0].tag, taken[0].id !in failed)] + Settlements(taken[1..], failed)
  }

  function AcknowledgeSpec(q: Queue, event: nat, response: Response): Queue {
    if event !in q.inflight then q
    else
      var taken := q.inflight[event];
      q.(inflight := q.inflight - {event},
         settled := q.settled + Settlements(taken, FailuresOf(response, Ids(taken)).ids))
  }

  function PassSpec(q: Queue): Queue {
    match q.phase
    case Top =>
      if q.aborted then q.(phase := Ended(false))
      else if q.failure then q.(phase := Ended(true))
      else if q.pending == [] then q
      else q.(phase := Window)
    case Window =>
      if q.aborted then q.(phase := Ended(false))
      else
        var n := if q.batchSize < |q.pending| then q.batchSize else |q.pending|;
        q.(pending := q.pending[n..], batches := q.batches + [q.pending[..n]],
           inflight := q.inflight[|q.batches| := q.pending[..n]], phase := Held(|q.batches|))
    case Held(event) =>
      if q.aborted then q.(phase := Ended(false))
      else if q.failure then q.(phase := Ended(true))
      else if event !in q.inflight then q.(phase := Top)
      else
        var taken := q.inflight[event];
        q.(phase := Top, inflight := q.inflight - {event}, settled := q.settled + Settlements(taken, Ids(taken)))
    case Ended(_) => q
  }

  function Step(q: Queue, e: Event): Queue {
    match e
    case Consume(id) => Enqueue(q.(count := q.count + 1), Delivery(q.count, id))
    case Subscribe(id) => q.(count := q.count + 1, reading := q.reading[q.count := id])
    case BodyRead(tag) =>
      if tag in q.reading then Enqueue(q.(reading := q.reading - {tag}), Delivery(tag, q.reading[tag])) else q
    case BodyFailed(tag) =>
      if tag in q.reading then
        q.(reading := q.reading - {tag}, unread := q.unread + [tag], settled := q.settled + [Settlement(tag, false)])
      else q
    case Fail => q.(failure := true)
    case Abort => q.(aborted := true)
    case Acknowledge(event, response) => AcknowledgeSpec(q, event, response)
    case Pass => PassSpec(q)
  }

  function RunSpec(q: Queue, events: seq<Event>): Queue
    decreases |events|
  {
    if events == [] then q else RunSpec(Step(q, events[0]), events[1..])
  }

  // ---- What every step keeps ----

  function Tags(ds: seq<Delivery>): multiset<nat> {
    if ds == [] then multiset{} else multiset{ds[0].tag} + Tags(ds[1..])
  }

  function SettledTags(settled: seq<Settlement>): multiset<nat> {
    if settled == [] then multiset{} else multiset{settled[0].tag} + SettledTags(settled[1..])
  }

  /** The deliveries of the batches that are no longer in flight. */
  function Finished(q: Queue): seq<Delivery> {
    if q.inflight == map[] || q.batches == [] then Flatten(q.batches) else Flatten(q.batches[..|q.batches| - 1])
  }

  /** Nothing is lost or reordered on the way into batches. */
  ghost predicate InOrder(q: Queue)
  {
    && q.arrived == Flatten(q.batches) + q.pending
    && forall k :: 0 <= k < |q.batches| ==> 1 <= |q.batches[k]| <= q.batchSize
  }

  /** At most the newest batch is in flight, and none while the loop may take one. */
  ghost predicate OneInFlight(q: Queue)
  {
    && (q.inflight == map[] || (q.batches != [] && q.inflight == map[|q.batches| - 1 := q.batches[|q.batches| - 1]]))
    && (q.phase.Top? || q.phase.Window? ==> q.inflight == map[])
    && (q.phase.Held? ==> q.phase.event == |q.batches| - 1)
    && (q.phase.Window? ==> q.pending != [])
  }

  /** What has been settled, once each: the finished batches and the unread bodies. */
  ghost predicate SettledOnce(q: Queue)
  {
    SettledTags(q.settled) == Tags(Finished(q)) + multiset(q.unread)
  }

  /** Each delivery is in one place. */
  ghost predicate Apart(q: Queue)
  {
    forall t: nat :: Tags(q.arrived)[t] + multiset(q.unread)[t] + Once(t in q.reading) == Once(t < q.count)
  }

  ghost predicate Valid(q: Queue)
  {
    && q.batchSize >= 1
    && InOrder(q) && OneInFlight(q) && SettledOnce(q) && Apart(q)
  }

  lemma {:induction false} TagsConcat(a: seq<Delivery>, b: seq<Delivery>)
    ensures Tags(a + b) == Tags(a) + Tags(b)
  {
    if a == [] {
      assert a + b == b;
    } else {
      assert (a + b)[1..] == a[1..] + b;
      TagsConcat(a[1..], b);
    }
  }

  lemma {:induction false} SettledConcat(a: seq<Settlement>, b: seq<Settlement>)
    ensures SettledTags(a + b) == SettledTags(a) + SettledTags(b)
  {
    if a == [] {
      assert a + b == b;
    } else {
      assert (a + b)[1..] == a[1..] + b;
      SettledConcat(a[1..], b);
    }
  }

  lemma {:induction false} SettlementsOf(taken: seq<Delivery>, failed: set<Id>)
    ensures SettledTags(Settlements(taken, failed)) == Tags(taken)
  {
    if taken != [] {
      SettlementsOf(taken[1..], failed);
      assert Settlements(taken, failed)[1..] == Settlements(taken[1..], failed);
    }
  }

  lemma TagsOne(d: Delivery)
    ensures Tags([d]) == multiset{d.tag}
  {
    assert [d][1..] == [];
  }

  lemma SettledOne(s: Settlement)
    ensures SettledTags([s]) == multiset{s.tag}
  {
    assert [s][1..] == [];
  }

  lemma BeginValid(batchSize: nat)
    requires batchSize >= 1
    ensures Valid(Begin(batchSize))
    ensures var q := Begin(batchSize); q.phase.Top? && !q.aborted && !q.failure
  {
  }

  lemma EnqueueKeeps(q: Queue, d: Delivery)
    requires InOrder(q) && OneInFlight(q) && SettledOnce(q)
    ensures
      var q' := Enqueue(q, d);
      InOrder(q') && OneInFlight(q') && SettledOnce(q') && Tags(q'.arrived) == Tags(q.arrived) + multiset{d.tag}
  {
    hide Tags, Flatten, SettledTags;
    TagsConcat(q.arrived, [d]);
    TagsOne(d);
    assert Flatten(q.batches) + q.pending + [d] == Flatten(q.batches) + (q.pending + [d]);
  }

  lemma BodyFailedKeeps(q: Queue, tag: nat)
    requires Valid(q) && tag in q.reading
    ensures Valid(Step(q, BodyFailed(tag)))
  {
    hide Tags, Flatten, SettledTags, InOrder, OneInFlight, Finished;
    SettledConcat(q.settled, [Settlement(tag, false)]);
    SettledOne(Settlement(tag, false));
    var q' := Step(q, BodyFailed(tag));
    assert Finished(q') == Finished(q) && InOrder(q') && OneInFlight(q') by {
      SameBatches(q, q');
    }
    assert multiset(q'.unread) == multiset(q.unread) + multiset{tag};
  }

  lemma SameBatches(q: Queue, q': Queue)
    requires q'.batches == q.batches && q'.inflight == q.inflight && q'.phase == q.phase
    requires q'.arrived == q.arrived && q'.pending == q.pending && q'.batchSize == q.batchSize
    ensures Finished(q') == Finished(q) && InOrder(q') == InOrder(q) && OneInFlight(q') == OneInFlight(q)
  {
    hide Flatten;
  }

  lemma BodyReadKeeps(q: Queue, tag: nat)
    requires Valid(q) && tag in q.reading
    ensures Valid(Step(q, BodyRead(tag)))
  {
    hide Tags, Flatten, SettledTags, InOrder, OneInFlight, Finished, Enqueue, SettledOnce;
    var read := q.(reading := q.reading - {tag});
    SameBatches(q, read);
    assert SettledOnce(read) by { SettledSame(q, read); }
    EnqueueKeeps(read, Delivery(tag, q.reading[tag]));
    EnqueueFrame(read, Delivery(tag, q.reading[tag]));
  }

  lemma EnqueueFrame(q: Queue, d: Delivery)
    ensures
      var q' := Enqueue(q, d);
      q'.unread == q.unread && q'.reading == q.reading && q'.count == q.count && q'.batchSize == q.batchSize
  {
  }

  lemma SettledSame(q: Queue, q': Queue)
    requires Finished(q') == Finished(q) && q'.settled == q.settled && q'.unread == q.unread
    ensures SettledOnce(q') == SettledOnce(q)
  {
  }

  lemma ArriveKeeps(q: Queue, e: Event)
    requires Valid(q) && (e.Consume? || e.Subscribe?)
    ensures Valid(Step(q, e))
  {
    hide Tags, Flatten, SettledTags, InOrder, OneInFlight, Finished, SettledOnce;
    var counted := q.(count := q.count + 1);
    assert Tags(q.arrived)[q.count] + multiset(q.unread)[q.count] + Once(q.count in q.reading) == 0;
    SameBatches(q, counted);
    SettledSame(q, counted);
    if e.Consume? {
      EnqueueKeeps(counted, Delivery(q.count, e.id));
      EnqueueFrame(counted, Delivery(q.count, e.id));
      assert Apart(Step(q, e));
    } else {
      var q' := Step(q, e);
      SameBatches(q, q');
      SettledSame(q, q');
    }
  }

  /** The newest batch leaves the flight with one settlement for each delivery. */
  lemma SettleKeeps(q: Queue, event: nat, failed: set<Id>, phase: Phase)
    requires Valid(q) && event in q.inflight
    requires phase == q.phase || (phase.Top? && q.phase == Held(event))
    ensures Valid(q.(phase := phase, inflight := q.inflight - {event},
                     settled := q.settled + Settlements(q.inflight[event], failed)))
  {
    var taken := q.inflight[event];
    var q' := q.(phase := phase, inflight := q.inflight - {event}, settled := q.settled + Settlements(taken, failed));
    SettleFinishes(q, q', event);
    SameElsewhere(q, q');
    hide Tags, Flatten, SettledTags, Settlements, Finished, OneInFlight, InOrder, Apart;
    SettledConcat(q.settled, Settlements(taken, failed));
    SettlementsOf(taken, failed);
    TagsConcat(Finished(q), taken);
  }

  lemma SameElsewhere(q: Queue, q': Queue)
    requires q'.arrived == q.arrived && q'.batches == q.batches && q'.pending == q.pending
    requires q'.batchSize == q.batchSize && q'.unread == q.unread && q'.reading == q.reading && q'.count == q.count
    ensures InOrder(q') == InOrder(q) && Apart(q') == Apart(q)
  {
    hide Flatten, Tags;
  }

  lemma LastBatch(batches: seq<seq<Delivery>>)
    requires batches != []
    ensures Flatten(batches) == Flatten(batches[..|batches| - 1]) + batches[|batches| - 1]
  {
  }

  lemma SettleFinishes(q: Queue, q': Queue, event: nat)
    requires OneInFlight(q) && event in q.inflight
    requires q'.phase == q.phase || (q'.phase.Top? && q.phase == Held(event))
    requires q'.batches == q.batches && q'.inflight == q.inflight - {event} && q'.pending == q.pending
    ensures OneInFlight(q') && Finished(q') == Finished(q) + q.inflight[event]
  {
    hide Flatten;
    assert Flatten(q.batches) == Flatten(q.batches[..|q.batches| - 1]) + q.batches[|q.batches| - 1] by {
      LastBatch(q.batches);
    }
    assert q'.inflight == map[];
    assert q.inflight[event] == q.batches[|q.batches| - 1];
  }

  lemma TakeKeeps(q: Queue)
    requires Valid(q) && q.phase.Window? && !q.aborted
    ensures Valid(PassSpec(q))
  {
    var q' := PassSpec(q);
    var taken := q'.batches[|q.batches|];
    FlattenSnoc(q.batches, taken);
    assert Finished(q') == Finished(q) by {
      assert q'.batches[..|q.batches|] == q.batches && |q.batches| in q'.inflight;
    }
    hide Tags, Flatten, SettledTags, Finished;
    assert taken + q'.pending == q.pending;
    assert (Flatten(q.batches) + taken) + q'.pending == Flatten(q.batches) + (taken + q'.pending);
  }

  /** A change of phase, or of the flags the loop reads. */
  lemma PhaseKeeps(q: Queue, phase: Phase, aborted: bool, failure: bool)
    requires Valid(q)
    requires
      || phase == q.phase
      || phase.Ended?
      || (phase.Top? && q.inflight == map[])
      || (phase.Window? && q.inflight == map[] && q.pending != [])
    ensures Valid(q.(phase := phase, aborted := aborted, failure := failure))
  {
    hide Tags, Flatten, SettledTags;
  }

  /** An event held out that is no longer in flight leaves nothing in flight. */
  lemma HeldAlone(q: Queue)
    requires Valid(q) && q.phase.Held? && q.phase.event !in q.inflight
    ensures q.inflight == map[]
  {
    hide Tags, Flatten, SettledTags;
  }

  lemma PassKeeps(q: Queue)
    requires Valid(q)
    ensures Valid(PassSpec(q))
  {
    if q.phase.Window? && !q.aborted {
      TakeKeeps(q);
    } else if q.phase.Held? && !q.aborted && !q.failure {
      if q.phase.event in q.inflight {
        SettleKeeps(q, q.phase.event, Ids(q.inflight[q.phase.event]), Top);
      } else {
        HeldAlone(q);
        PhaseKeeps(q, Top, q.aborted, q.failure);
      }
      hide Valid;
    } else {
      PhaseKeeps(q, PassSpec(q).phase, q.aborted, q.failure);
      hide Valid;
    }
  }

  lemma StepKeeps(q: Queue, e: Event)
    requires Valid(q)
    ensures Valid(Step(q, e))
  {
    hide PassSpec, Enqueue, Settlements, FailuresOf, Ids, Valid;
    match e
    case Consume(_) => ArriveKeeps(q, e);
    case Subscribe(_) => ArriveKeeps(q, e);
    case BodyRead(tag) =>
      if tag in q.reading {
        BodyReadKeeps(q, tag);
      }
    case BodyFailed(tag) =>
      if tag in q.reading {
        BodyFailedKeeps(q, tag);
      }
    case Acknowledge(event, response) =>
      if event in q.inflight {
        SettleKeeps(q, event, FailuresOf(response, Ids(q.inflight[event])).ids, q.phase);
      }
    case Pass => PassKeeps(q);
    case Fail => PhaseKeeps(q, q.phase, q.aborted, true);
    case Abort => PhaseKeeps(q, q.phase, true, q.failure);
  }

  lemma {:induction false} FlattenPrefix(batches: seq<seq<Delivery>>)
    ensures batches != [] ==> Tags(Flatten(batches[..|batches| - 1])) <= Tags(Flatten(batches))
  {
    if batches != [] {
      TagsConcat(Flatten(batches[..|batches| - 1]), batches[|batches| - 1]);
    }
  }

  lemma FinishedWithin(q: Queue)
    ensures Tags(Finished(q)) <= Tags(Flatten(q.batches))
  {
    FlattenPrefix(q.batches);
    hide Tags, Flatten;
  }

  /** The counts of one delivery. */
  lemma SettledCounts(q: Queue, t: nat)
    requires Valid(q)
    ensures SettledTags(q.settled)[t] == Tags(Finished(q))[t] + multiset(q.unread)[t]
    ensures Tags(Flatten(q.batches))[t] + Tags(q.pending)[t] + multiset(q.unread)[t] <= 1
    ensures Tags(Finished(q))[t] <= Tags(Flatten(q.batches))[t]
  {
    TagsConcat(Flatten(q.batches), q.pending);
    FinishedWithin(q);
    hide Tags, Flatten, SettledTags, Finished, OneInFlight;
    assert Tags(q.arrived)[t] + multiset(q.unread)[t] + Once(t in q.reading) <= 1;
  }

  /** No delivery is settled twice; while the loop may take another batch every
      delivery it has taken is settled, once. */
  lemma ValidSettlesOnce(q: Queue)
    requires Valid(q)
    ensures forall t: nat :: SettledTags(q.settled)[t] <= 1
    ensures q.phase.Top? || q.phase.Window? ==>
      forall t: nat :: t in Tags(Flatten(q.batches)) ==> SettledTags(q.settled)[t] == 1
    ensures forall t: nat :: t in Tags(q.pending) ==> SettledTags(q.settled)[t] == 0
  {
    assert q.phase.Top? || q.phase.Window? ==> Finished(q) == Flatten(q.batches);
    hide Valid, Tags, Flatten, SettledTags, Finished;
    forall t: nat
      ensures SettledTags(q.settled)[t] <= 1
      ensures t in Tags(q.pending) ==> SettledTags(q.settled)[t] == 0
      ensures t in Tags(Flatten(q.batches)) && (q.phase.Top? || q.phase.Window?) ==> SettledTags(q.settled)[t] == 1
    {
      SettledCounts(q, t);
    }
  }

  /** Every run, over any interleaving of deliveries, failures, aborts,
      acknowledgements (repeated, late, unknown or invalid) and the loop. */
  lemma {:induction false} EveryRunSettlesOnce(q: Queue, events: seq<Event>)
    requires Valid(q)
    ensures
      var q' := RunSpec(q, events);
      && Valid(q')
      && q'.arrived == Flatten(q'.batches) + q'.pending
      && (forall k :: 0 <= k < |q'.batches| ==> 1 <= |q'.batches[k]| <= q'.batchSize)
      && (forall t: nat :: SettledTags(q'.settled)[t] <= 1)
      && (q'.phase.Top? || q'.phase.Window? ==>
            forall t: nat :: t in Tags(Flatten(q'.batches)) ==> SettledTags(q'.settled)[t] == 1)
    decreases |events|
  {
    if events == [] {
      ValidSettlesOnce(q);
    } else {
      StepKeeps(q, events[0]);
      hide Step, Valid;
      EveryRunSettlesOnce(Step(q, events[0]), events[1..]);
    }
  }

  // ---- What each event does ----

  /** The loop from one wait to the next. An abort ends it wherever it is; a failure ends
      it, but not in a batch window. A window opens on pending deliveries, and takes the
      first of them, all there are up to the batch size, as one batch held out; a batch
      that is back and was not acknowledged is nacked whole. */
  lemma PassDoes(q: Queue)
    ensures
      var q' := Step(q, Pass);
      if q.phase.Ended? then q' == q
      else if q.aborted then q' == q.(phase := Ended(false))
      else if q.failure && !q.phase.Window? then q' == q.(phase := Ended(true))
      else match q.phase
        case Top => q' == if q.pending == [] then q else q.(phase := Window)
        case Window =>
          var b, n := |q.batches|, if |q.pending| < q.batchSize then |q.pending| else q.batchSize;
          && q'.batches[..b] == q.batches && |q'.batches| == b + 1 && |q'.batches[b]| == n
          && q.pending == q'.batches[b] + q'.pending && q'.inflight == q.inflight[b := q'.batches[b]]
          && q' == q.(phase := Held(b), batches := q'.batches, pending := q'.pending, inflight := q'.inflight)
        case Held(b) =>
          if b !in q.inflight then q' == q.(phase := Top)
          else
            && q' == q.(phase := Top, inflight := q.inflight - {b}, settled := q'.settled)
            && Adds(q.settled, q'.settled, q.inflight[b])
            && forall i :: |q.settled| <= i < |q'.settled| ==> !q'.settled[i].acked
  {
    if q.phase.Held? && q.phase.event in q.inflight {
      SettlementsAt(q.inflight[q.phase.event], Ids(q.inflight[q.phase.event]));
    }
  }

  /** One settlement for each delivery follows, in order. */
  ghost predicate Adds(before: seq<Settlement>, after: seq<Settlement>, taken: seq<Delivery>)
  {
    && |after| == |before| + |taken| && after[..|before|] == before
    && forall i :: 0 <= i < |taken| ==> after[|before| + i].tag == taken[i].tag
  }

  /** An acknowledgement settles its batch, each delivery by the response; of an unknown or
      settled event it does nothing. */
  lemma AcknowledgeDoes(q: Queue, event: nat, response: Response)
    ensures
      var q' := Step(q, Acknowledge(event, response));
      if event !in q.inflight then q' == q
      else
        var taken, n := q.inflight[event], |q.settled|;
        && q' == q.(inflight := q.inflight - {event}, settled := q'.settled)
        && Adds(q.settled, q'.settled, taken)
        && forall i :: 0 <= i < |taken| ==> (q'.settled[n + i].acked <==> Acks(Answered(response), taken, taken[i]))
  {
    if event in q.inflight {
      var taken := q.inflight[event];
      SettlementsAt(taken, FailuresOf(response, Ids(taken)).ids);
      forall i | 0 <= i < |taken|
        ensures taken[i].id !in FailuresOf(response, Ids(taken)).ids <==> Acks(Answered(response), taken, taken[i])
      {
        AcksIff(Answered(response), taken, taken[i]);
      }
    }
    hide FailuresOf, Ids, Acks, Settlements;
  }

  /** Deliveries are numbered as they come. A RabbitMQ one is queued at once, an ActiveMQ
      one when its body has been read, and nacked when that fails. */
  lemma ArrivalsDo(q: Queue, id: Id, tag: nat)
    ensures
      var d := Delivery(q.count, id);
      Step(q, Consume(id)) ==
      q.(count := q.count + 1, arrived := q.arrived + [d], pending := q.pending + [d])
    ensures Step(q, Subscribe(id)) == q.(count := q.count + 1, reading := q.reading[q.count := id])
    ensures tag !in q.reading ==> Step(q, BodyRead(tag)) == q == Step(q, BodyFailed(tag))
    ensures tag in q.reading ==>
      && Step(q, BodyRead(tag)) ==
         q.(reading := q.reading - {tag}, arrived := q.arrived + [Delivery(tag, q.reading[tag])],
            pending := q.pending + [Delivery(tag, q.reading[tag])])
      && Step(q, BodyFailed(tag)) ==
         q.(reading := q.reading - {tag}, unread := q.unread + [tag],
            settled := q.settled + [Settlement(tag, false)])
    ensures Step(q, Fail) == q.(failure := true) && Step(q, Abort) == q.(aborted := true)
  {
  }

  // ---- Which deliveries are acked ----

  /** How a batch left the hands of the poller: acknowledged with a response, or found
      unacknowledged by the loop. */
  datatype Verdict = Answered(response: Response) | Unanswered

  /** The batch an event decides. */
  function Decides(q: Queue, e: Event): map<nat, Verdict> {
    if e.Acknowledge? && e.event in q.inflight then map[e.event := Answered(e.response)]
    else if e.Pass? && q.phase.Held? && q.phase.event in q.inflight && !q.aborted && !q.failure then
      map[q.phase.event := Unanswered]
    else map[]
  }

  /** The verdicts on the batches of a run. */
  function Verdicts(q: Queue, events: seq<Event>): map<nat, Verdict>
    decreases |events|
  {
    if events == [] then map[] else Decides(q, events[0]) + Verdicts(Step(q, events[0]), events[1..])
  }

  /** A response acknowledges a delivery of the batch if it names only deliveries of the
      batch, and not this one. */
  predicate Acks(verdict: Verdict, batch: seq<Delivery>, d: Delivery) {
    && verdict.Answered? && d.id !in verdict.response
    && forall id :: id in verdict.response ==> exists k :: 0 <= k < |batch| && batch[k].id == id
  }

  /** Every batch with a verdict has its settlements, the others are in flight; a
      delivery with an unreadable body is nacked. */
  ghost predicate Judged(q: Queue, verdicts: map<nat, Verdict>)
  {
    && (forall b :: b in verdicts ==> b < |q.batches|)
    && (forall b :: 0 <= b < |q.batches| ==> (b in verdicts <==> b !in q.inflight))
    && (forall b, d :: b in verdicts && d in q.batches[b] ==>
          Settlement(d.tag, Acks(verdicts[b], q.batches[b], d)) in q.settled)
    && (forall t :: t in q.unread ==> Settlement(t, false) in q.settled)
  }

  lemma {:induction false} SettlementsAt(taken: seq<Delivery>, failed: set<Id>)
    ensures |Settlements(taken, failed)| == |taken|
    ensures forall i :: 0 <= i < |taken| ==>
      Settlements(taken, failed)[i] == Settlement(taken[i].tag, taken[i].id !in failed)
  {
    if taken != [] {
      SettlementsAt(taken[1..], failed);
    }
  }

  lemma AcksIff(verdict: Verdict, taken: seq<Delivery>, d: Delivery)
    requires d in taken
    ensures Acks(verdict, taken, d)
       <==> verdict.Answered? && d.id !in FailuresOf(verdict.response, Ids(taken)).ids
  {
    assert d.id in Ids(taken);
    if verdict.Answered? {
      assert forall k :: 0 <= k < |taken| ==> taken[k].id in Ids(taken);
      if ToSet(verdict.response) <= Ids(taken) {
        forall id | id in verdict.response
          ensures exists k :: 0 <= k < |taken| && taken[k].id == id
        {
          assert id in ToSet(verdict.response);
          var d' :| d' in taken && d'.id == id;
          var k :| 0 <= k < |taken| && taken[k] == d';
        }
      }
    }
  }

  lemma BatchSettled(taken: seq<Delivery>, verdict: Verdict, failed: set<Id>)
    requires failed == if verdict.Answered? then FailuresOf(verdict.response, Ids(taken)).ids else Ids(taken)
    ensures forall d :: d in taken ==> Settlement(d.tag, Acks(verdict, taken, d)) in Settlements(taken, failed)
  {
    SettlementsAt(taken, failed);
    forall d | d in taken
      ensures Settlement(d.tag, Acks(verdict, taken, d)) in Settlements(taken, failed)
    {
      var i :| 0 <= i < |taken| && taken[i] == d;
      AcksIff(verdict, taken, d);
      assert d.id in Ids(taken);
      hide Acks, FailuresOf, Ids;
      assert Settlements(taken, failed)[i] == Settlement(d.tag, d.id !in failed);
    }
  }

  /** The newest batch is decided and settled. */
  lemma JudgedDecided(q: Queue, verdicts: map<nat, Verdict>, b: nat, verdict: Verdict, failed: set<Id>, phase: Phase)
    requires Judged(q, verdicts) && OneInFlight(q) && b in q.inflight
    requires failed == if verdict.Answered? then FailuresOf(verdict.response, Ids(q.inflight[b])).ids
                       else Ids(q.inflight[b])
    ensures Judged(q.(phase := phase, inflight := q.inflight - {b},
                      settled := q.settled + Settlements(q.inflight[b], failed)),
                   verdicts + map[b := verdict])
  {
    BatchSettled(q.inflight[b], verdict, failed);
    hide Settlements, Acks, FailuresOf, Ids;
  }

  /** A step that decides nothing: another batch may be taken, another body nacked. */
  lemma JudgedElse(q: Queue, verdicts: map<nat, Verdict>, q': Queue)
    requires Judged(q, verdicts) && q.batches <= q'.batches && q.settled <= q'.settled
    requires forall b :: 0 <= b < |q.batches| ==> (b in q'.inflight <==> b in q.inflight)
    requires forall b :: |q.batches| <= b < |q'.batches| ==> b in q'.inflight
    requires forall t :: t in q'.unread ==> t in q.unread || Settlement(t, false) in q'.settled
    ensures Judged(q', verdicts)
  {
    hide Acks;
  }

  lemma JudgedStep(q: Queue, verdicts: map<nat, Verdict>, e: Event)
    requires OneInFlight(q) && Judged(q, verdicts)
    ensures Judged(Step(q, e), verdicts + Decides(q, e))
  {
    hide Settlements, FailuresOf, Ids, Judged;
    if e.Acknowledge? && e.event in q.inflight {
      JudgedDecided(q, verdicts, e.event, Answered(e.response),
                    FailuresOf(e.response, Ids(q.inflight[e.event])).ids, q.phase);
    } else if e.Pass? && q.phase.Held? && q.phase.event in q.inflight && !q.aborted && !q.failure {
      JudgedDecided(q, verdicts, q.phase.event, Unanswered, Ids(q.inflight[q.phase.event]), Top);
    } else {
      JudgedUndecided(q, verdicts, e);
      NothingAdded(verdicts);
      hide Step, OneInFlight;
    }
  }

  lemma NothingAdded<T>(a: map<nat, T>)
    ensures a + map[] == a
  {
  }

  lemma JudgedUndecided(q: Queue, verdicts: map<nat, Verdict>, e: Event)
    requires OneInFlight(q) && Judged(q, verdicts)
    requires !(e.Acknowledge? && e.event in q.inflight)
    requires !(e.Pass? && q.phase.Held? && q.phase.event in q.inflight && !q.aborted && !q.failure)
    ensures Judged(Step(q, e), verdicts)
  {
    hide Settlements, FailuresOf, Ids, Judged;
    UndecidedStep(q, e);
    hide Step, OneInFlight;
    JudgedElse(q, verdicts, Step(q, e));
  }

  lemma UndecidedStep(q: Queue, e: Event)
    requires !(e.Acknowledge? && e.event in q.inflight)
    requires !(e.Pass? && q.phase.Held? && q.phase.event in q.inflight && !q.aborted && !q.failure)
    requires forall b :: b in q.inflight ==> b < |q.batches|
    ensures
      var q' := Step(q, e);
      && q.batches <= q'.batches && q.settled <= q'.settled
      && (forall b :: 0 <= b < |q.batches| ==> (b in q'.inflight <==> b in q.inflight))
      && (forall b :: |q.batches| <= b < |q'.batches| ==> b in q'.inflight)
      && (forall t :: t in q'.unread ==> t in q.unread || Settlement(t, false) in q'.settled)
  {
    hide Settlements, FailuresOf, Ids;
    if e.BodyFailed? {
      assert (q.settled + [Settlement(e.tag, false)])[|q.settled|] == Settlement(e.tag, false);
    }
  }

  lemma {:induction false} RunJudged(q: Queue, verdicts: map<nat, Verdict>, events: seq<Event>)
    requires Valid(q) && Judged(q, verdicts)
    ensures Judged(RunSpec(q, events), verdicts + Verdicts(q, events))
    decreases |events|
  {
    hide Valid, Judged, Step, Decides, RunSpec, Verdicts;
    RunUnfolds(q, events);
    if events == [] {
      NothingAdded(verdicts);
    } else {
      StepKeeps(q, events[0]);
      JudgedNext(q, verdicts, events[0]);
      var next, decided := Step(q, events[0]), Decides(q, events[0]);
      RunJudged(next, verdicts + decided, events[1..]);
      MapsAdd(verdicts, decided, Verdicts(next, events[1..]));
    }
  }

  lemma RunUnfolds(q: Queue, events: seq<Event>)
    ensures events == [] ==> RunSpec(q, events) == q && Verdicts(q, events) == map[]
    ensures events != [] ==>
      var next := Step(q, events[0]);
      && RunSpec(q, events) == RunSpec(next, events[1..])
      && Verdicts(q, events) == Decides(q, events[0]) + Verdicts(next, events[1..])
  {
    hide Step, Decides;
  }

  lemma JudgedNext(q: Queue, verdicts: map<nat, Verdict>, e: Event)
    requires Valid(q) && Judged(q, verdicts)
    ensures Judged(Step(q, e), verdicts + Decides(q, e))
  {
    hide InOrder, OneInFlight, SettledOnce, Apart, Judged, Step, Decides;
    JudgedStep(q, verdicts, e);
  }

  lemma MapsAdd<T>(a: map<nat, T>, b: map<nat, T>, c: map<nat, T>)
    ensures (a + b) + c == a + (b + c)
  {
  }

  lemma {:induction false} TagIn(settled: seq<Settlement>, s: Settlement)
    requires s in settled
    ensures s.tag in SettledTags(settled)
  {
    if settled[0] != s {
      TagIn(settled[1..], s);
    }
  }

  /** Two settlements of one delivery would count twice. */
  lemma {:induction false} OneSettlement(settled: seq<Settlement>, a: Settlement, b: Settlement)
    requires a in settled && b in settled && a.tag == b.tag && SettledTags(settled)[a.tag] <= 1
    ensures a == b
  {
    if settled[0] == a {
      if b != a {
        TagIn(settled[1..], b);
      }
    } else if settled[0] == b {
      TagIn(settled[1..], a);
    } else {
      OneSettlement(settled[1..], a, b);
    }
  }

  lemma {:induction false} TagOf(ds: seq<Delivery>, d: Delivery)
    requires d in ds
    ensures d.tag in Tags(ds)
  {
    if ds[0] != d {
      TagOf(ds[1..], d);
    }
  }

  /** A delivery in flight has not been settled. */
  lemma InFlightUnsettled(q: Queue, b: nat, d: Delivery, acked: bool)
    requires Valid(q) && b in q.inflight && b < |q.batches| && d in q.batches[b]
    ensures Settlement(d.tag, acked) !in q.settled
  {
    var n := |q.batches| - 1;
    assert b == n && Finished(q) == Flatten(q.batches[..n]);
    TagOf(q.batches[n], d);
    LastBatch(q.batches);
    TagsConcat(Flatten(q.batches[..n]), q.batches[n]);
    SettledCounts(q, d.tag);
    hide Valid, Tags, Flatten, Finished, SettledTags;
    if Settlement(d.tag, acked) in q.settled {
      TagIn(q.settled, Settlement(d.tag, acked));
    }
  }

  /** Over every run: a delivery taken in a batch is acked if and only if its batch was
      acknowledged by a response that names none but deliveries of the batch, and not
      this one; it is nacked if and only if the response names it, or is invalid, or
      the loop found the batch unacknowledged; and until then it is neither. */
  lemma EveryRunSettlesRight(batchSize: nat, events: seq<Event>, b: nat, d: Delivery, acked: bool)
    requires batchSize >= 1
    ensures
      var q, verdicts := RunSpec(Begin(batchSize), events), Verdicts(Begin(batchSize), events);
      && (b < |q.batches| && d in q.batches[b] ==>
            (Settlement(d.tag, acked) in q.settled <==>
               b in verdicts && acked == Acks(verdicts[b], q.batches[b], d)))
      && (d in q.pending ==> Settlement(d.tag, acked) !in q.settled)
      && (d.tag in q.unread ==> (Settlement(d.tag, acked) in q.settled <==> !acked))
  {
    var start := Begin(batchSize);
    var q, verdicts := RunSpec(start, events), Verdicts(start, events);
    BeginValid(batchSize);
    RunJudged(start, map[], events);
    assert map[] + verdicts == verdicts;
    EveryRunSettlesOnce(start, events);
    ValidSettlesOnce(q);
    hide Begin, RunSpec, Verdicts, Acks, Valid;
    if Settlement(d.tag, acked) in q.settled {
      TagIn(q.settled, Settlement(d.tag, acked));
      if d in q.pending {
        TagOf(q.pending, d);
      }
      if d.tag in q.unread {
        OneSettlement(q.settled, Settlement(d.tag, acked), Settlement(d.tag, false));
      }
    }
    if b < |q.batches| && d in q.batches[b] {
      if b in verdicts {
        var s := Settlement(d.tag, Acks(verdicts[b], q.batches[b], d));
        if Settlement(d.tag, acked) in q.settled {
          OneSettlement(q.settled, Settlement(d.tag, acked), s);
        }
      } else {
        InFlightUnsettled(q, b, d, acked);
      }
    }
  }

  // ---- The poller ----

  class MqPoller {
    const batchSize: nat
    var count: nat
    var reading: map<nat, Id>
    var pending: seq<Delivery>
    var inflight: map<nat, seq<Delivery>>
    var aborted: bool
    var failure: bool
    var phase: Phase
    var settled: seq<Settlement>
    ghost var arrived: seq<Delivery>
    var batches: seq<seq<Delivery>>
    ghost var unread: seq<nat>

    ghost function State(): Queue
      reads this
    {
      Queue(batchSize, count, reading, arrived, pending, batches, inflight, aborted, failure, phase, settled, unread)
    }

    constructor (batchSize: nat)
      ensures State() == Begin(batchSize)
    {
      this.batchSize := batchSize;
      count, reading, pending, inflight := 0, map[], [], map[];
      aborted, failure, phase, settled, batches := false, false, Top, [], [];
      arrived, unread := [], [];
    }

    method Push(d: Delivery)
      modifies `pending, `arrived
      ensures State() == Enqueue(old(State()), d)
    {
      pending := pending + [d];
      arrived := arrived + [d];
    }

    /** The RabbitMQ consumer callback. */
    method OnMessage(id: Id)
      modifies this
      ensures State() == Step(old(State()), Consume(id))
    {
      count := count + 1;
      Push(Delivery(count - 1, id));
    }

    /** The ActiveMQ subscription callback, and the body it reads. */
    method OnSubscribed(id: Id) returns (tag: nat)
      modifies this
      ensures State() == Step(old(State()), Subscribe(id)) && tag == old(count)
    {
      tag := count;
      reading := reading[tag := id];
      count := count + 1;
    }

    method OnBody(tag: nat, readable: bool)
      modifies this
      ensures State() == Step(old(State()), if readable then BodyRead(tag) else BodyFailed(tag))
    {
      if tag in reading {
        var id := reading[tag];
        reading := reading - {tag};
        if readable {
          Push(Delivery(tag, id));
        } else {
          settled := settled + [Settlement(tag, false)];
          unread := unread + [tag];
        }
      }
    }

    /** Acks or nacks each delivery of a batch. */
    method Settle(taken: seq<Delivery>, failed: set<Id>)
      modifies `settled
      ensures settled == old(settled) + Settlements(taken, failed)
    {
      for i := 0 to |taken|
        invariant settled + Settlements(taken[i..], failed) == old(settled) + Settlements(taken, failed)
      {
        assert taken[i..][1..] == taken[i + 1..];
        settled := settled + [Settlement(taken[i].tag, taken[i].id !in failed)];
      }
    }

    /** `acknowledge`: an unknown or settled event has no effect; an invalid
        response nacks every delivery, then raises. */
    method Acknowledge(event: nat, response: Response) returns (raised: bool)
      modifies this
      ensures State() == AcknowledgeSpec(old(State()), event, response)
      ensures raised <==> old(event in inflight && inflight[event] != [] && !(ToSet(response) <= Ids(inflight[event])))
    {
      var taken := if event in inflight then inflight[event] else [];
      inflight := inflight - {event};
      if taken == [] {
        assert event !in old(inflight) ==> inflight == old(inflight);
        return false;
      }
      var failed := ReadFailures(response, Ids(taken));
      Settle(taken, failed.ids);
      raised := !failed.valid;
    }

    /** The poll loop, from one wait to the next. */
    method Run()
      requires phase.Window? ==> pending != []
      modifies this
      ensures State() == PassSpec(old(State()))
    {
      match phase {
        case Top =>
          if aborted {
            phase := Ended(false);
          } else if failure {
            phase := Ended(true);
          } else if pending != [] {
            phase := Window;
          }
        case Window =>
          if aborted {
            phase := Ended(false);
            return;
          }
          var n := if batchSize < |pending| then batchSize else |pending|;
          var taken := pending[..n];
          pending := pending[n..];
          inflight := inflight[|batches| := taken];
          phase := Held(|batches|);
          batches := batches + [taken];
        case Held(event) =>
          if aborted {
            phase := Ended(false);
          } else if failure {
            phase := Ended(true);
          } else {
            phase := Top;
            if event in inflight {
              var unsettled := inflight[event];
              inflight := inflight - {event};
              Settle(unsettled, Ids(unsettled));
            }
          }
        case Ended(_) =>
      }
    }
  }
}
