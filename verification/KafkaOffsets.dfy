/** The Kafka response behind the builder, which names an offset by `Number`, and what
    the poller resolves of it. A message is its offset in the batch's partition. */
module KafkaOffsets {
  import opened Wrappers
  import opened BatchHandler
  import opened BatchFailures
  import opened KafkaPoller

  const TWO_53: nat := 0x20_0000_0000_0000

  /** An offset below 2^54 as `Number` renders it: from 2^53 on the odd ones go to the
      neighbour whose half is even. */
  function Rendered(offset: Id): Id {
    EvenFrom(TWO_53, offset)
  }

  function EvenFrom(bound: nat, offset: Id): Id {
    if offset < bound then offset
    else match offset % 4
      case 1 => offset - 1
      case 3 => offset + 1
      case _ => offset
  }

  predicate Odd(offset: Id) {
    offset % 4 == 1 || offset % 4 == 3
  }

  predicate Ascending(ids: seq<Id>) {
    forall i, j :: 0 <= i < j < |ids| ==> ids[i] < ids[j]
  }

  ghost predicate Monotone(name: Id -> Id)
  {
    forall a, b :: a <= b ==> name(a) <= name(b)
  }

  lemma RenderedNear(offset: Id)
    ensures offset < TWO_53 || !Odd(offset) ==> Rendered(offset) == offset
    ensures offset - 1 <= Rendered(offset) <= offset + 1
    ensures offset >= TWO_53 ==> Rendered(offset) >= TWO_53 && !Odd(Rendered(offset))
  {
    hide EvenFrom, Odd;
    assert TWO_53 == 4 * 0x8_0000_0000_0000;
    EvenFromNear(TWO_53, 0x8_0000_0000_0000, offset);
  }

  lemma EvenFromNear(bound: nat, quarter: nat, offset: Id)
    requires bound == 4 * quarter
    ensures offset < bound || !Odd(offset) ==> EvenFrom(bound, offset) == offset
    ensures offset - 1 <= EvenFrom(bound, offset) <= offset + 1
    ensures offset >= bound ==> EvenFrom(bound, offset) >= bound && !Odd(EvenFrom(bound, offset))
  {
  }

  lemma RenderedInOrder(a: Id, b: Id)
    requires a <= b
    ensures Rendered(a) <= Rendered(b)
  {
    RenderedNear(a);
    RenderedNear(b);
    hide Rendered;
  }

  lemma RenderedKeepsOrder()
    ensures Monotone(Rendered) && Idempotent(Rendered)
  {
    forall a: Id, b: Id | a <= b
      ensures Rendered(a) <= Rendered(b)
    {
      RenderedInOrder(a, b);
    }
    forall a: Id
      ensures Rendered(Rendered(a)) == Rendered(a)
    {
      RenderedNear(a);
      RenderedNear(Rendered(a));
    }
    hide Rendered;
  }

  /** The first record that is not done, if there is one. */
  function FirstUndone(ids: seq<Id>, settled: seq<Settled>, from: nat): (i: nat)
    requires from <= |ids|
    ensures from <= i <= |ids| && (i < |ids| ==> !IsDone(settled, i))
    ensures forall j :: from <= j < i ==> IsDone(settled, j)
    decreases |ids| - from
  {
    if from == |ids| || !IsDone(settled, from) then from else FirstUndone(ids, settled, from + 1)
  }

  /** The runner's answer after a batch was settled. */
  function Answer(ids: seq<Id>, settled: seq<Settled>, name: Id -> Id): Runner {
    Acknowledged(NotDone(Rename(ids, name), settled, 0))
  }

  /** The batch fails past its retry limit, and is discarded. */
  predicate Discards(c: Consumer, turn: Turn) {
    var failed := Filter(turn.batch.ids, GateOf(turn.batch.ids, turn.runner));
    failed != [] && !turn.abortedAtAck && Exhausted(c, turn.batch, failed)
  }

  /** A message that is not done was resolved by this batch, and no report of it names
      the message. */
  ghost predicate LetsThrough(c: Consumer, turn: Turn, settled: seq<Settled>)
  {
    var ids, c' := turn.batch.ids, TurnSpec(c, turn);
    exists i :: 0 <= i < |ids| && !IsDone(settled, i) && Slips(c, c', ids[i])
  }

  predicate Slips(c: Consumer, c': Consumer, id: Id) {
    && |c.resolved| <= |c'.resolved| && |c.reports| <= |c'.reports|
    && id in c'.resolved[|c.resolved|..] && !Named(c'.reports[|c.reports|..], id)
  }

  /** What the batch resolves and reports, spelled out. */
  lemma TurnSlips(c: Consumer, turn: Turn, id: Id)
    requires !turn.aborted
    ensures
      var ids := turn.batch.ids;
      var failed := GateOf(ids, turn.runner);
      Slips(c, TurnSpec(c, turn), id) <==>
        if Discards(c, turn) then id in ids && id !in failed else id in Before(ids, failed)
  {
    hide TurnSpec, GateOf, Filter, Before, Discards, FailuresOf;
    var ids := turn.batch.ids;
    var failed := GateOf(ids, turn.runner);
    var c' := TurnSpec(c, turn);
    TurnResolves(c, turn);
    DiscardsReports(c, turn);
    BeforeIsLongest(ids, failed);
    FilterMembers(ids, failed);
    if c'.reports != c.reports {
      assert c'.resolved[|c.resolved|..] == ids[..|ids|] == ids;
      assert c'.reports[|c.reports|..] == [Filter(ids, failed)];
      assert Named([Filter(ids, failed)], id) <==> id in Filter(ids, failed) by {
        assert [Filter(ids, failed)][0] == Filter(ids, failed);
      }
    } else {
      assert c'.resolved[|c.resolved|..] == Before(ids, failed);
      assert c'.reports[|c.reports|..] == [];
    }
  }

  lemma DiscardsReports(c: Consumer, turn: Turn)
    requires !turn.aborted
    ensures TurnSpec(c, turn).reports != c.reports <==> Discards(c, turn)
  {
    hide GateOf, Filter, Before, AttemptAt, Verdicts;
  }

  /** In ascending order the rendering of the first record not done is the least. */
  lemma LeastNamed(ids: seq<Id>, settled: seq<Settled>, name: Id -> Id)
    requires Ascending(ids) && Monotone(name) && FirstUndone(ids, settled, 0) < |ids|
    requires ActedOnAs(ids, settled, name).valid
    ensures
      var failed, least := ActedOnAs(ids, settled, name).ids, name(ids[FirstUndone(ids, settled, 0)]);
      least in failed && least in ids && forall id :: id in failed ==> least <= id
  {
    var failed := ActedOnAs(ids, settled, name).ids;
    var first := FirstUndone(ids, settled, 0);
    UndoneNamed(ids, settled, name);
    hide NotDone, Rename;
    assert name(ids[first]) in failed;
    assert name(ids[first]) in ToSet(ids);
    forall id | id in failed
      ensures name(ids[first]) <= id
    {
      var i :| 0 <= i < |ids| && name(ids[i]) == id && !IsDone(settled, i);
      assert first <= i && ids[first] <= ids[i];
    }
  }

  /** So it is the first failed record the poller meets, when the response is valid. */
  lemma FirstFailed(ids: seq<Id>, settled: seq<Settled>, name: Id -> Id)
    requires Ascending(ids) && Monotone(name) && FirstUndone(ids, settled, 0) < |ids|
    requires ActedOnAs(ids, settled, name).valid
    ensures
      var k := |Before(ids, ActedOnAs(ids, settled, name).ids)|;
      k < |ids| && ids[k] == name(ids[FirstUndone(ids, settled, 0)])
  {
    var failed := ActedOnAs(ids, settled, name).ids;
    LeastNamed(ids, settled, name);
    BeforeIsLongest(ids, failed);
    hide ActedOnAs, Before, FirstUndone;
    var least := name(ids[FirstUndone(ids, settled, 0)]);
    var k :| 0 <= k < |ids| && ids[k] == least;
    var b := |Before(ids, failed)|;
    assert b <= k && least <= ids[b];
  }

  /** An invalid response fails every record, so nothing is before a failed one. */
  lemma InvalidHoldsAll(ids: seq<Id>, settled: seq<Settled>, name: Id -> Id)
    requires !ActedOnAs(ids, settled, name).valid
    ensures ActedOnAs(ids, settled, name).ids == ToSet(ids) && Before(ids, ToSet(ids)) == []
  {
  }

  /** In ascending order a record is in the prefix exactly when it is below its end. */
  lemma BeforeUpTo(ids: seq<Id>, failed: set<Id>, i: nat)
    requires Ascending(ids) && i < |ids| && |Before(ids, failed)| < |ids|
    ensures ids[i] in Before(ids, failed) <==> i < |Before(ids, failed)|
    ensures i < |Before(ids, failed)| <==> ids[i] < ids[|Before(ids, failed)|]
  {
    BeforeIsLongest(ids, failed);
    var k := |Before(ids, failed)|;
    if ids[i] in ids[..k] {
      var j :| 0 <= j < k && ids[j] == ids[i];
    }
  }

  /** Behind the builder, for every batch in ascending order: a message that is not
      done is resolved without a report naming it if and only if the response passes
      as valid and, where the batch is discarded, some message not done is rendered
      inexactly, and otherwise the first one is rendered upwards. */
  lemma LetsThroughIff(c: Consumer, turn: Turn, settled: seq<Settled>, name: Id -> Id)
    requires !turn.aborted && turn.runner == Answer(turn.batch.ids, settled, name)
    requires Ascending(turn.batch.ids) && Monotone(name) && Idempotent(name)
    ensures
      var ids := turn.batch.ids;
      var first := FirstUndone(ids, settled, 0);
      LetsThrough(c, turn, settled) <==>
        && ActedOnAs(ids, settled, name).valid && first < |ids|
        && if Discards(c, turn) then !NamesUndone(ids, settled, name) else name(ids[first]) > ids[first]
  {
    var ids := turn.batch.ids;
    var failed := ActedOnAs(ids, settled, name);
    var first := FirstUndone(ids, settled, 0);
    assert GateOf(ids, turn.runner) == failed.ids;
    forall i | 0 <= i < |ids|
      ensures Slips(c, TurnSpec(c, turn), ids[i]) <==>
              if Discards(c, turn) then ids[i] !in failed.ids else ids[i] in Before(ids, failed.ids)
    {
      TurnSlips(c, turn, ids[i]);
    }
    BeforeIsLongest(ids, failed.ids);
    hide TurnSpec, GateOf, Slips, Discards, Before, Idempotent, Answer;
    if first == |ids| {
    } else if !failed.valid {
      InvalidHoldsAll(ids, settled, name);
    } else if Discards(c, turn) {
      NoFailedTakenForDone(ids, settled, name);
    } else {
      FirstFailed(ids, settled, name);
      BeforeUpTo(ids, failed.ids, first);
    }
  }

  lemma RenderedWhich(offset: Id)
    ensures Rendered(offset) != offset <==> offset >= TWO_53 && Odd(offset)
    ensures Rendered(offset) > offset <==> offset >= TWO_53 && offset % 4 == 3
  {
    EvenFromWhich(TWO_53, offset);
    hide EvenFrom;
  }

  lemma EvenFromWhich(bound: nat, offset: Id)
    ensures EvenFrom(bound, offset) != offset <==> offset >= bound && Odd(offset)
    ensures EvenFrom(bound, offset) > offset <==> offset >= bound && offset % 4 == 3
  {
  }

  /** A message not done that `Number` changes. */
  predicate ChangesOne(ids: seq<Id>, settled: seq<Settled>) {
    exists i :: 0 <= i < |ids| && !IsDone(settled, i) && ids[i] >= TWO_53 && Odd(ids[i])
  }

  lemma ChangesOneIff(ids: seq<Id>, settled: seq<Settled>)
    ensures ChangesOne(ids, settled) <==> !NamesUndone(ids, settled, Rendered)
  {
    forall i | 0 <= i < |ids|
      ensures Rendered(ids[i]) != ids[i] <==> ids[i] >= TWO_53 && Odd(ids[i])
    {
      RenderedWhich(ids[i]);
    }
    hide Rendered, IsDone;
  }

  /** For offsets below 2^54, in their own digits: a valid response lets a message slip
      through exactly when the batch is discarded and `Number` changes some message
      not done, or is not discarded and the first message not done has remainder 3
      modulo 4 and is not below 2^53. */
  lemma OffsetsLetThroughIff(c: Consumer, turn: Turn, settled: seq<Settled>)
    requires !turn.aborted && turn.runner == Answer(turn.batch.ids, settled, Rendered) && Ascending(turn.batch.ids)
    requires forall i :: 0 <= i < |turn.batch.ids| ==> turn.batch.ids[i] < 2 * TWO_53
    ensures
      var ids := turn.batch.ids;
      var first := FirstUndone(ids, settled, 0);
      LetsThrough(c, turn, settled) <==>
        && ActedOnAs(ids, settled, Rendered).valid && first < |ids|
        && if Discards(c, turn) then ChangesOne(ids, settled) else ids[first] >= TWO_53 && ids[first] % 4 == 3
  {
    hide LetsThrough, Discards, ActedOnAs, Answer, FirstUndone, ChangesOne, NamesUndone, Rendered, Ascending;
    RenderedKeepsOrder();
    LetsThroughIff(c, turn, settled, Rendered);
    var ids := turn.batch.ids;
    ChangesOneIff(ids, settled);
    if FirstUndone(ids, settled, 0) < |ids| {
      RenderedWhich(ids[FirstUndone(ids, settled, 0)]);
    }
  }

  /** Below 2^53 nothing slips through, and the right messages are acted on. */
  lemma NothingSlipsBelow(c: Consumer, turn: Turn, settled: seq<Settled>)
    requires !turn.aborted && turn.runner == Answer(turn.batch.ids, settled, Rendered) && Ascending(turn.batch.ids)
    requires forall i :: 0 <= i < |turn.batch.ids| ==> turn.batch.ids[i] < TWO_53
    ensures !LetsThrough(c, turn, settled)
    ensures ActedOnAs(turn.batch.ids, settled, Rendered) == FailedSet(Undone(turn.batch.ids, settled), true)
  {
    hide LetsThrough, Discards, ActedOnAs, Answer, Ascending, Undone, Rendered, NamesUndone;
    var ids := turn.batch.ids;
    assert !ChangesOne(ids, settled);
    OffsetsLetThroughIff(c, turn, settled);
    RenderedKeepsOrder();
    ChangesOneIff(turn.batch.ids, settled);
    EndToEndAs(turn.batch.ids, settled, Rendered);
  }

  /** A batch of two offsets, answered behind the builder and committed. */
  function Delivered(a: Id, b: Id, settled: seq<Settled>): Turn {
    Turn(Batch(0, [a, b]), false, Answer([a, b], settled, Rendered), false, false)
  }

  lemma NamesOnly(ids: seq<Id>, settled: seq<Settled>, name: Id -> Id, i: nat)
    requires i < |ids| && forall j :: 0 <= j < |ids| ==> (IsDone(settled, j) <==> j != i)
    ensures ToSet(NotDone(Rename(ids, name), settled, 0)) == {name(ids[i])}
    ensures FirstUndone(ids, settled, 0) == i
  {
    UndoneNamed(ids, settled, name);
  }

  /** Rendered upwards: the rejected message is resolved and committed, unreported. */
  lemma RoundedUpIsCommitted()
    ensures
      var c := TurnSpec(Begin(None), Delivered(TWO_53 + 3, TWO_53 + 4, [Rejected(0), Fulfilled(0)]));
      c.resolved == [TWO_53 + 3] && c.committed == 1 && c.reports == []
  {
    var turn := Delivered(TWO_53 + 3, TWO_53 + 4, [Rejected(0), Fulfilled(0)]);
    var ids := turn.batch.ids;
    NamesOnly(ids, [Rejected(0), Fulfilled(0)], Rendered, 0);
    assert Rendered(ids[0]) == ids[1];
    assert GateOf(ids, turn.runner) == {ids[1]};
    BeforeIsLongest(ids, {ids[1]});
    TurnResolves(Begin(None), turn);
    DiscardsReports(Begin(None), turn);
    assert ids[..1] == [TWO_53 + 3];
  }

  /** Rendered downwards: a fulfilled message is held back, and nothing is resolved. */
  lemma RoundedDownHolds()
    ensures
      var c := TurnSpec(Begin(None), Delivered(TWO_53, TWO_53 + 1, [Fulfilled(0), Rejected(0)]));
      c.resolved == [] && c.reports == []
  {
    var turn := Delivered(TWO_53, TWO_53 + 1, [Fulfilled(0), Rejected(0)]);
    var ids := turn.batch.ids;
    NamesOnly(ids, [Fulfilled(0), Rejected(0)], Rendered, 1);
    assert Rendered(ids[1]) == ids[0];
    assert GateOf(ids, turn.runner) == {ids[0]};
    BeforeIsLongest(ids, {ids[0]});
    TurnResolves(Begin(None), turn);
    DiscardsReports(Begin(None), turn);
    assert ids[..0] == [];
  }
}
