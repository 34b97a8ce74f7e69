/** Partial batch responses: how they are built from settled records, and how a
    poller reads the failed set back. */
module BatchFailures {
  import opened BatchHandler

  /** An `itemIdentifier`, compared as a `Set` compares: a number stands for one
      JavaScript value, null and undefined included. */
  type Id = nat

  /** The `itemIdentifier`s of a response's `batchItemFailures`, in order; a
      missing response has none. */
  type Response = seq<Id>

  function ToSet(ids: seq<Id>): set<Id> {
    set id | id in ids
  }

  /** The failed set to act on, and whether the response was valid. */
  datatype FailedSet = FailedSet(ids: set<Id>, valid: bool)

  /** One entry that names no record in the batch invalidates the response: then
      every record failed. */
  function FailuresOf(response: Response, knownIds: set<Id>): FailedSet {
    if ToSet(response) <= knownIds then FailedSet(ToSet(response), true) else FailedSet(knownIds, false)
  }

  /** `batchFailures`. */
  method ReadFailures(response: Response, knownIds: set<Id>) returns (failed: FailedSet)
    ensures failed == FailuresOf(response, knownIds)
  {
    var ids: set<Id> := {};
    for i := 0 to |response|
      invariant ids == ToSet(response[..i]) && ids <= knownIds
    {
      if response[i] !in knownIds {
        assert response[i] in ToSet(response);
        return FailedSet(knownIds, false);
      }
      ids := ids + {response[i]};
    }
    assert response[..|response|] == response;
    failed := FailedSet(ids, true);
  }

  /** A response fails a record of the batch by naming it, or by an entry that names
      none of the batch. */
  predicate Fails(response: Response, ids: seq<Id>, id: Id) {
    id in response || exists other :: other in response && other !in ids
  }

  /** The failed set has exactly the records the response fails. */
  lemma FailsExactly(response: Response, ids: seq<Id>)
    ensures forall id :: id in FailuresOf(response, ToSet(ids)).ids <==> id in ids && Fails(response, ids, id)
    ensures FailuresOf(response, ToSet(ids)).valid <==> forall other :: other in response ==> other in ids
  {
    if ToSet(response) <= ToSet(ids) {
      assert forall other :: other in response ==> other in ToSet(response);
    }
  }

  /** A record counts as done only with a fulfilled entry of its own. */
  predicate IsDone(settled: seq<Settled>, i: nat) {
    i < |settled| && settled[i].Fulfilled?
  }

  /** The identifiers of the records from `from` on that are not done, in order. */
  function NotDone(ids: seq<Id>, settled: seq<Settled>, from: nat): seq<Id>
    requires from <= |ids|
    decreases |ids| - from
  {
    if from == |ids| then []
    else (if IsDone(settled, from) then [] else [ids[from]]) + NotDone(ids, settled, from + 1)
  }

  /** The identifiers as a response renders them. */
  function Rename(ids: seq<Id>, name: Id -> Id): (named: seq<Id>)
    ensures |named| == |ids| && forall i :: 0 <= i < |ids| ==> named[i] == name(ids[i])
  {
    seq(|ids|, i requires 0 <= i < |ids| => name(ids[i]))
  }

  /** `buildBatchItemFailures`, where a record is named as it is, and the Kafka
      builder, where `name` puts the offset through `Number`: the key itself below
      2^53, and possibly another offset's from there on. */
  method BuildBatchItemFailures(ids: seq<Id>, settled: seq<Settled>, name: Id -> Id) returns (response: Response)
    ensures response == NotDone(Rename(ids, name), settled, 0)
  {
    response := [];
    ghost var named := Rename(ids, name);
    hide Rename, NotDone;
    for i := 0 to |ids|
      invariant response + NotDone(named, settled, i) == NotDone(named, settled, 0)
    {
      NotDoneStep(named, settled, i, response);
      if i < |settled| && settled[i].Fulfilled? {
        continue;
      }
      response := response + [name(ids[i])];
    }
    NotDoneEnd(named, settled);
  }

  lemma NotDoneStep(ids: seq<Id>, settled: seq<Settled>, from: nat, before: seq<Id>)
    requires from < |ids|
    ensures before + NotDone(ids, settled, from) ==
            (if IsDone(settled, from) then before else before + [ids[from]]) + NotDone(ids, settled, from + 1)
  {
  }

  lemma NotDoneEnd(ids: seq<Id>, settled: seq<Settled>)
    ensures forall before: Response :: before + NotDone(ids, settled, |ids|) == before
  {
  }

  lemma {:induction false} NotDoneIds(ids: seq<Id>, settled: seq<Settled>, from: nat)
    requires from <= |ids|
    ensures forall id :: id in NotDone(ids, settled, from)
              <==> exists i :: from <= i < |ids| && ids[i] == id && !IsDone(settled, i)
    decreases |ids| - from
  {
    if from < |ids| {
      NotDoneIds(ids, settled, from + 1);
      forall id | id in NotDone(ids, settled, from)
        ensures exists i :: from <= i < |ids| && ids[i] == id && !IsDone(settled, i)
      {
        if id in NotDone(ids, settled, from + 1) {
        } else {
          assert ids[from] == id;
        }
      }
    }
  }

  /** The records a failed set names, in order: what the shard pollers keep. */
  function Filter(ids: seq<Id>, failed: set<Id>): seq<Id> {
    if ids == [] then [] else (if ids[0] in failed then [ids[0]] else []) + Filter(ids[1..], failed)
  }

  function Without(ids: seq<Id>, failed: set<Id>): seq<Id> {
    if ids == [] then [] else (if ids[0] in failed then [] else [ids[0]]) + Without(ids[1..], failed)
  }

  lemma {:induction false} FilterMembers(ids: seq<Id>, failed: set<Id>)
    ensures forall id :: id in Filter(ids, failed) <==> id in ids && id in failed
  {
    if ids != [] {
      FilterMembers(ids[1..], failed);
      assert forall id :: id in ids <==> id == ids[0] || id in ids[1..];
    }
  }

  lemma {:induction false} FilterSuperset(ids: seq<Id>, all: set<Id>)
    requires forall id :: id in ids ==> id in all
    ensures Filter(ids, all) == ids
  {
    if ids != [] {
      FilterSuperset(ids[1..], all);
    }
  }

  lemma {:induction false} FilterNone(ids: seq<Id>, failed: set<Id>)
    requires forall id :: id in ids ==> id !in failed
    ensures Filter(ids, failed) == []
  {
    if ids != [] {
      FilterNone(ids[1..], failed);
    }
  }

  /** What the latest delivery of a record came to. */
  datatype Settlement = Succeeded | Reported | Pending

  /** Some report names the record. */
  predicate Named(reports: seq<seq<Id>>, id: Id) {
    exists k :: 0 <= k < |reports| && id in reports[k]
  }

  lemma MoreReports(reports: seq<seq<Id>>, more: seq<seq<Id>>)
    ensures reports + [] == reports
    ensures forall id :: Named(reports, id) ==> Named(reports + more, id)
  {
    forall id | Named(reports, id)
      ensures Named(reports + more, id)
    {
      var k :| 0 <= k < |reports| && id in reports[k];
      assert (reports + more)[k] == reports[k];
    }
  }

  lemma ReportNames(reports: seq<seq<Id>>, failed: seq<Id>)
    ensures forall id :: id in failed ==> Named(reports + [failed], id)
  {
    assert (reports + [failed])[|reports|] == failed;
  }

  /** The failed set a poller acts on after the response of a settled batch. */
  function ActedOn(ids: seq<Id>, settled: seq<Settled>): FailedSet {
    FailuresOf(NotDone(ids, settled, 0), ToSet(ids))
  }

  /** End to end, for every batch of a source whose records are named as they are:
      the response is valid, no failed record is taken for done, and the records
      acted on as failed are exactly those not done if and only if no done record
      shares its identifier with one of them. */
  lemma EndToEnd(ids: seq<Id>, settled: seq<Settled>)
    ensures
      var failed := ActedOn(ids, settled);
      && failed.valid
      && (forall i :: 0 <= i < |ids| && !IsDone(settled, i) ==> ids[i] in failed.ids)
      && ((forall i :: 0 <= i < |ids| ==> (ids[i] in failed.ids <==> !IsDone(settled, i)))
          <==> forall i, j :: 0 <= i < |ids| && 0 <= j < |ids| && IsDone(settled, i) && !IsDone(settled, j)
                 ==> ids[i] != ids[j])
  {
    NotDoneIds(ids, settled, 0);
    var failed := ActedOn(ids, settled);
    assert failed.valid && failed.ids == ToSet(NotDone(ids, settled, 0));
    forall i, j | 0 <= i < |ids| && 0 <= j < |ids| && IsDone(settled, i) && !IsDone(settled, j) && ids[i] == ids[j]
      ensures ids[i] in failed.ids
    {
    }
  }

  /** The same when the response renders identifiers by `name`, which the poller
      compares with its own. */
  function ActedOnAs(ids: seq<Id>, settled: seq<Settled>, name: Id -> Id): FailedSet {
    FailuresOf(NotDone(Rename(ids, name), settled, 0), ToSet(ids))
  }

  /** The identifiers of the records not done. */
  function Undone(ids: seq<Id>, settled: seq<Settled>): set<Id> {
    ToSet(NotDone(ids, settled, 0))
  }

  /** The rendering of the failed records is exact. */
  predicate NamesUndone(ids: seq<Id>, settled: seq<Settled>, name: Id -> Id) {
    forall i :: 0 <= i < |ids| && !IsDone(settled, i) ==> name(ids[i]) == ids[i]
  }

  /** Rendering what was rendered changes nothing, as `Number` of a printed number
      gives the number back. */
  ghost predicate Idempotent(name: Id -> Id)
  {
    forall id :: name(name(id)) == name(id)
  }

  lemma UndoneNamed(ids: seq<Id>, settled: seq<Settled>, name: Id -> Id)
    ensures forall id :: id in Undone(ids, settled)
              <==> exists i :: 0 <= i < |ids| && ids[i] == id && !IsDone(settled, i)
    ensures forall id :: id in ToSet(NotDone(Rename(ids, name), settled, 0))
              <==> exists i :: 0 <= i < |ids| && name(ids[i]) == id && !IsDone(settled, i)
  {
    NotDoneIds(ids, settled, 0);
    NotDoneIds(Rename(ids, name), settled, 0);
  }

  /** End to end for any rendering: the poller acts on exactly the records not done,
      by a valid response, if and only if their identifiers are rendered exactly. */
  lemma EndToEndAs(ids: seq<Id>, settled: seq<Settled>, name: Id -> Id)
    requires Idempotent(name)
    ensures ActedOnAs(ids, settled, name) == FailedSet(Undone(ids, settled), true) <==> NamesUndone(ids, settled, name)
  {
    UndoneNamed(ids, settled, name);
    var named := ToSet(NotDone(Rename(ids, name), settled, 0));
    if NamesUndone(ids, settled, name) {
      assert named == Undone(ids, settled);
    } else if named == Undone(ids, settled) {
      RenderedIsFixed(ids, settled, name);
    }
  }

  lemma RenderedIsFixed(ids: seq<Id>, settled: seq<Settled>, name: Id -> Id)
    requires Idempotent(name) && Undone(ids, settled) <= ToSet(NotDone(Rename(ids, name), settled, 0))
    ensures NamesUndone(ids, settled, name)
  {
    UndoneNamed(ids, settled, name);
    forall i | 0 <= i < |ids| && !IsDone(settled, i)
      ensures name(ids[i]) == ids[i]
    {
      assert ids[i] in Undone(ids, settled);
      var j :| 0 <= j < |ids| && name(ids[j]) == ids[i] && !IsDone(settled, j);
      assert name(name(ids[j])) == name(ids[j]);
    }
  }

  /** A failed record is taken for done if and only if the response passes as valid
      with a failed record rendered inexactly. */
  lemma NoFailedTakenForDone(ids: seq<Id>, settled: seq<Settled>, name: Id -> Id)
    requires Idempotent(name)
    ensures
      var failed := ActedOnAs(ids, settled, name);
      (forall i :: 0 <= i < |ids| && !IsDone(settled, i) ==> ids[i] in failed.ids)
      <==> !failed.valid || NamesUndone(ids, settled, name)
  {
    UndoneNamed(ids, settled, name);
    var failed := ActedOnAs(ids, settled, name);
    if failed.valid && forall i :: 0 <= i < |ids| && !IsDone(settled, i) ==> ids[i] in failed.ids {
      RenderedIsFixed(ids, settled, name);
    }
  }

  /** Distinct identifiers, as the sources give out. */
  ghost predicate Distinct(ids: seq<Id>)
  {
    forall i, j :: 0 <= i < j < |ids| ==> ids[i] != ids[j]
  }

  /** With distinct identifiers, what is kept as failed is the response itself. */
  lemma {:induction false} FilterIsResponse(ids: seq<Id>, settled: seq<Settled>)
    requires Distinct(ids)
    ensures Filter(ids, ActedOn(ids, settled).ids) == NotDone(ids, settled, 0)
  {
    EndToEnd(ids, settled);
    FilterFrom(ids, settled, ActedOn(ids, settled).ids, 0);
    assert ids[0..] == ids;
  }

  lemma {:induction false} FilterFrom(ids: seq<Id>, settled: seq<Settled>, failed: set<Id>, from: nat)
    requires from <= |ids|
    requires forall i :: 0 <= i < |ids| ==> (ids[i] in failed <==> !IsDone(settled, i))
    ensures Filter(ids[from..], failed) == NotDone(ids, settled, from)
    decreases |ids| - from
  {
    if from < |ids| {
      assert ids[from..][1..] == ids[from + 1..];
      FilterFrom(ids, settled, failed, from + 1);
    }
  }

  lemma {:induction false} WithoutFrom(ids: seq<Id>, failed: set<Id>, from: nat, k: nat)
    requires from <= |ids| && from <= k <= |ids|
    requires forall i :: from <= i < |ids| ==> (ids[i] in failed <==> i >= k)
    ensures Without(ids[from..], failed) == ids[from..k]
    decreases |ids| - from
  {
    if from < |ids| {
      assert ids[from..][1..] == ids[from + 1..];
      if from < k {
        WithoutFrom(ids, failed, from + 1, k);
        assert [ids[from]] + ids[from + 1..k] == ids[from..k];
      } else {
        WithoutFrom(ids, failed, from + 1, from + 1);
      }
    }
  }

  /** A FIFO batch: what is not acted on as failed is the prefix before the first
      rejection, and nothing after that record was run. */
  lemma FifoPrefix(ids: seq<Id>, outcomes: seq<Settled>)
    requires Distinct(ids) && |outcomes| == |ids|
    ensures Without(ids, ActedOn(ids, Sequential(outcomes)).ids) == ids[..FirstRejected(outcomes)]
  {
    var settled := Sequential(outcomes);
    var k := FirstRejected(outcomes);
    EndToEnd(ids, settled);
    assert forall i :: 0 <= i < |ids| ==> (IsDone(settled, i) <==> i < k);
    WithoutFrom(ids, ActedOn(ids, settled).ids, 0, k);
    assert ids[0..] == ids;
  }
}
