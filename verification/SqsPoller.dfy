/** Acknowledging an SQS batch: what is deleted, in requests of at most ten. */
module SqsPoller {
  import opened Wrappers
  import opened Sequences
  import opened BatchHandler
  import opened BatchFailures

  datatype Record = Record(messageId: Id, receiptHandle: nat)

  datatype Error = InvalidEntry | DeleteFailures(failed: seq<Record>) | RequestRejected

  function Ids(records: seq<Record>): (ids: seq<Id>)
    ensures |ids| == |records| && forall i :: 0 <= i < |ids| ==> ids[i] == records[i].messageId
  {
    seq(|records|, i requires 0 <= i < |records| => records[i].messageId)
  }

  /** `slice(i, i + size)`. */
  function Group(records: seq<Record>, size: nat, i: nat): (g: seq<Record>)
    ensures |g| <= size && (size >= 1 && i < |records| ==> |g| >= 1)
  {
    if i >= |records| then []
    else if i + size < |records| then records[i..i + size]
    else records[i..]
  }

  /** What `chunk` cuts a list into, from `i` on. */
  function ChunksFrom(records: seq<Record>, size: nat, i: nat): (out: seq<seq<Record>>)
    requires size >= 1
    ensures forall g :: g in out ==> 1 <= |g| <= size
    decreases |records| - i
  {
    if i >= |records| then [] else [Group(records, size, i)] + ChunksFrom(records, size, i + size)
  }

  function Chunks(records: seq<Record>, size: nat): (out: seq<seq<Record>>)
    requires size >= 1
    ensures forall g :: g in out ==> 1 <= |g| <= size
  {
    ChunksFrom(records, size, 0)
  }

  function From(records: seq<Record>, i: nat): seq<Record> {
    if i < |records| then records[i..] else []
  }

  lemma GroupThenRest(records: seq<Record>, size: nat, i: nat)
    ensures Group(records, size, i) + From(records, i + size) == From(records, i)
  {
    if i + size < |records| {
      assert records[i..i + size] + records[i + size..] == records[i..];
    }
  }

  lemma ChunksStep(records: seq<Record>, size: nat, i: nat)
    requires size >= 1 && i < |records|
    ensures ChunksFrom(records, size, i) == [Group(records, size, i)] + ChunksFrom(records, size, i + size)
  {
    hide Group;
  }

  lemma ChunksEnd(records: seq<Record>, size: nat, i: nat)
    requires size >= 1 && i >= |records|
    ensures ChunksFrom(records, size, i) == [] && Flatten([]) == From(records, i)
  {
  }

  /** The groups spell the list. */
  lemma {:induction false} ChunksFlatten(records: seq<Record>, size: nat, i: nat)
    requires size >= 1
    ensures Flatten(ChunksFrom(records, size, i)) == From(records, i)
    decreases |records| - i
  {
    hide Group, Flatten, From;
    if i < |records| {
      ChunksStep(records, size, i);
      hide ChunksFrom;
      ChunksFlatten(records, size, i + size);
      FlattenCons(Group(records, size, i), ChunksFrom(records, size, i + size));
      GroupThenRest(records, size, i);
    } else {
      ChunksEnd(records, size, i);
    }
  }

  function Surviving(records: seq<Record>, failed: set<Id>): seq<Record> {
    if records == [] then []
    else (if records[0].messageId in failed then [] else [records[0]]) + Surviving(records[1..], failed)
  }

  lemma {:induction false} SurvivingIds(records: seq<Record>, failed: set<Id>)
    ensures Ids(Surviving(records, failed)) == Without(Ids(records), failed)
  {
    if records != [] {
      SurvivingIds(records[1..], failed);
      assert Ids(records)[1..] == Ids(records[1..]);
    }
  }

  lemma {:induction false} SurvivingSnoc(records: seq<Record>, last: Record, failed: set<Id>)
    ensures Surviving(records + [last], failed) ==
            Surviving(records, failed) + if last.messageId in failed then [] else [last]
  {
    if records == [] {
      assert [] + [last] == [last] && [last][1..] == [];
    } else {
      assert (records + [last])[1..] == records[1..] + [last];
      SurvivingSnoc(records[1..], last, failed);
      Regroup(if records[0].messageId in failed then [] else [records[0]], Surviving(records[1..], failed),
              if last.messageId in failed then [] else [last]);
    }
  }

  /** What survives, by place: exactly the records whose identifier is not failed, each
      once, whole and in order. */
  lemma {:induction false} SurvivingAt(records: seq<Record>, failed: set<Id>) returns (places: seq<nat>)
    ensures Places(places, |records|) && |Surviving(records, failed)| == |places|
    ensures forall i :: 0 <= i < |places| ==> Surviving(records, failed)[i] == records[places[i]]
    ensures forall k :: 0 <= k < |records| ==> (k in places <==> records[k].messageId !in failed)
  {
    if records == [] {
      places := [];
    } else {
      hide Surviving;
      var n := |records| - 1;
      places := SurvivingAt(records[..n], failed);
      assert records == records[..n] + [records[n]];
      SurvivingSnoc(records[..n], records[n], failed);
      if records[n].messageId !in failed {
        places := places + [n];
      }
    }
  }

  /** The records sent for deletion after a valid response, by their place in the batch:
      exactly those it does not name, each with its own receipt handle, in order. */
  lemma SentIffNotNamed(records: seq<Record>, response: Response) returns (places: seq<nat>)
    requires forall id :: id in response ==> id in Ids(records)
    ensures
      var sent := Flatten(Chunks(Surviving(records, FailuresOf(response, ToSet(Ids(records))).ids), 10));
      && Places(places, |records|) && |sent| == |places|
      && (forall i :: 0 <= i < |places| ==> sent[i] == records[places[i]])
      && forall k :: 0 <= k < |records| ==> (k in places <==> records[k].messageId !in response)
  {
    var failed := FailuresOf(response, ToSet(Ids(records)));
    FailsExactly(response, Ids(records));
    places := SurvivingAt(records, failed.ids);
    var surviving := Surviving(records, failed.ids);
    ChunksFlatten(surviving, 10, 0);
    assert From(surviving, 0) == surviving;
    hide FailuresOf, Flatten, Surviving, Chunks;
    forall k | 0 <= k < |records|
      ensures k in places <==> records[k].messageId !in response
    {
      assert Ids(records)[k] in Ids(records);
    }
  }

  predicate InRange(places: seq<nat>, n: nat) {
    forall i :: 0 <= i < |places| ==> places[i] < n
  }

  /** The records the service reported as failed, by their place in the group. */
  function At(group: seq<Record>, places: seq<nat>): (failed: seq<Record>)
    requires InRange(places, |group|)
    ensures |failed| == |places| && forall i :: 0 <= i < |places| ==> failed[i] == group[places[i]]
  {
    seq(|places|, i requires 0 <= i < |places| => group[places[i]])
  }

  class SqsPoller {
    /** The delete requests sent, and the entries the service failed of each. */
    var requests: seq<seq<Record>>
    var refused: seq<Record>

    constructor ()
      ensures requests == [] && refused == []
    {
      requests, refused := [], [];
    }

    /** `DeleteMessageBatch`: the request may be rejected; otherwise any entries of the
        group may be reported failed. */
    method DeleteBatch(group: seq<Record>) returns (answered: bool, failed: seq<nat>)
      requires 1 <= |group| <= 10
      modifies this
      ensures InRange(failed, |group|)
      ensures requests == old(requests) + [group]
      ensures refused == old(refused) + if answered then At(group, failed) else []
    {
      answered, failed := *, *;
      if !InRange(failed, |group|) {
        failed := [];
      }
      requests := requests + [group];
      if answered {
        refused := refused + At(group, failed);
      }
    }

    /** `acknowledge`. An invalid response deletes nothing; otherwise every record it
        does not name is sent for deletion, group after group. A rejected request is
        the last one sent, and raised as it is; if all are answered, exactly the
        entries the service failed are raised. */
    method Acknowledge(records: seq<Record>, response: Response) returns (r: Result<(), Error>, ghost sent: nat)
      modifies this
      ensures old(refused) <= refused
      ensures
        var failed := FailuresOf(response, ToSet(Ids(records)));
        var groups := Chunks(Surviving(records, failed.ids), 10);
        var now := refused[|old(refused)|..];
        if !failed.valid then r == Failure(InvalidEntry) && requests == old(requests) && now == []
        else
          && sent <= |groups| && requests == old(requests) + groups[..sent]
          && if r == Failure(RequestRejected) then sent >= 1
             else sent == |groups| && r == if now == [] then Success(()) else Failure(DeleteFailures(now))
    {
      hide FailuresOf, Surviving, Chunks, Ids, At, InRange;
      sent := 0;
      var failed := ReadFailures(response, ToSet(Ids(records)));
      if !failed.valid {
        return Failure(InvalidEntry), 0;
      }
      var groups := Chunk(Surviving(records, failed.ids), 10);
      ghost var sentBefore, refusedBefore := requests, refused;
      var deleteFailures := [];
      for i := 0 to |groups|
        invariant requests == sentBefore + groups[..i]
        invariant refused == refusedBefore + deleteFailures
      {
        assert groups[i] in groups;
        TakeOneMore(sentBefore, groups, i);
        var answered, places := DeleteBatch(groups[i]);
        if !answered {
          return Failure(RequestRejected), i + 1;
        }
        Regroup(refusedBefore, deleteFailures, At(groups[i], places));
        deleteFailures := deleteFailures + At(groups[i], places);
      }
      assert groups[..|groups|] == groups;
      sent := |groups|;
      r := if deleteFailures == [] then Success(()) else Failure(DeleteFailures(deleteFailures));
    }
  }

  /** `chunk`. */
  method Chunk(records: seq<Record>, size: nat) returns (out: seq<seq<Record>>)
    requires size >= 1
    ensures out == Chunks(records, size)
  {
    out := [];
    var i := 0;
    while i < |records|
      invariant out + ChunksFrom(records, size, i) == Chunks(records, size)
      decreases |records| - i
    {
      out := out + [Group(records, size, i)];
      i := i + size;
    }
  }

  /** For a FIFO batch settled in order, the messages sent for deletion are the
      prefix before the first record that failed. */
  lemma {:induction false} FifoDeletesPrefix(records: seq<Record>, outcomes: seq<Settled>)
    requires Distinct(Ids(records)) && |outcomes| == |records|
    ensures
      var failed := ActedOn(Ids(records), Sequential(outcomes));
      && failed.valid
      && Ids(Flatten(Chunks(Surviving(records, failed.ids), 10))) == Ids(records)[..FirstRejected(outcomes)]
  {
    hide ActedOn, Without, ChunksFrom, Group, Flatten, Distinct;
    var failed := ActedOn(Ids(records), Sequential(outcomes));
    EndToEnd(Ids(records), Sequential(outcomes));
    FifoPrefix(Ids(records), outcomes);
    SurvivingIds(records, failed.ids);
    ChunksFlatten(Surviving(records, failed.ids), 10, 0);
    assert From(Surviving(records, failed.ids), 0) == Surviving(records, failed.ids);
  }
}
