/** Running a batch of records: at most `limit` at once by a pool of workers, or
    one at a time up to the first failure. */
module BatchHandler {
  import opened Wrappers

  datatype Settled = Fulfilled(value: int) | Rejected(reason: int)

  /** The reason given to records after a failed FIFO record. */
  const UNPROCESSED := -1

  /** A worker between records, at a record, or done. */
  datatype Worker = Ready | Running(idx: nat) | Finished

  function Range(n: nat): (r: seq<nat>)
    ensures |r| == n && forall i :: 0 <= i < n ==> r[i] == i
  {
    seq(n, i requires 0 <= i => i)
  }

  function CountRunning(workers: seq<Worker>): (n: nat)
    ensures n <= |workers|
  {
    if workers == [] then 0
    else CountRunning(workers[..|workers| - 1]) + if workers[|workers| - 1].Running? then 1 else 0
  }

  function CountUnfinished(workers: seq<Worker>): (n: nat)
    ensures n <= |workers|
  {
    if workers == [] then 0
    else CountUnfinished(workers[..|workers| - 1]) + if workers[|workers| - 1].Finished? then 0 else 1
  }

  lemma {:induction false} CountsAfter(workers: seq<Worker>, w: nat, to: Worker)
    requires w < |workers|
    ensures
      var after := workers[w := to];
      && CountRunning(after) == CountRunning(workers)
           - (if workers[w].Running? then 1 else 0) + (if to.Running? then 1 else 0)
      && CountUnfinished(after) == CountUnfinished(workers)
           - (if workers[w].Finished? then 0 else 1) + (if to.Finished? then 0 else 1)
  {
    var n := |workers| - 1;
    var after := workers[w := to];
    if w == n {
      assert after[..n] == workers[..n];
    } else {
      assert after[..n] == workers[..n][w := to];
      CountsAfter(workers[..n], w, to);
    }
  }

  ghost predicate HasRunner(workers: seq<Worker>, i: nat)
  {
    exists w :: 0 <= w < |workers| && workers[w] == Running(i)
  }

  /** A worker that was not running takes no runner away. */
  lemma RunnersAfter(workers: seq<Worker>, w: nat, to: Worker)
    requires w < |workers| && !workers[w].Running?
    ensures forall i :: HasRunner(workers[w := to], i) <==> HasRunner(workers, i) || to == Running(i)
  {
    var after := workers[w := to];
    forall i | HasRunner(workers, i) || to == Running(i)
      ensures HasRunner(after, i)
    {
      if to == Running(i) {
        assert after[w] == Running(i);
      } else {
        var v :| 0 <= v < |workers| && workers[v] == Running(i);
        assert after[v] == Running(i);
      }
    }
  }

  /** The pool of `settleConcurrent`. `outcomes` is what each record's run comes
      to; a step of a worker is what it does between two awaits. */
  class WorkerPool {
    const outcomes: seq<Settled>
    const limit: nat
    const settled: array<Option<Settled>>
    var next: nat
    var workers: seq<Worker>
    ghost var claims: seq<nat>

    ghost predicate Valid()
      reads this, settled
    {
      && settled.Length == |outcomes| && next <= |outcomes| && |workers| == limit
      && claims == Range(next)
      && (forall i :: next <= i < |outcomes| ==> settled[i] == None)
      && (forall i :: 0 <= i < next ==>
            settled[i] == Some(outcomes[i]) || (settled[i] == None && HasRunner(workers, i)))
      && (forall w :: 0 <= w < |workers| && workers[w].Running? ==>
            workers[w].idx < next && settled[workers[w].idx] == None)
      && (forall v, w :: 0 <= v < w < |workers| && workers[v].Running? && workers[w].Running? ==>
            workers[v].idx != workers[w].idx)
      && (forall w :: 0 <= w < |workers| && workers[w].Finished? ==> next == |outcomes|)
    }

    /** Steps left, whichever workers take them. */
    ghost function Remaining(): nat
      reads this
      requires next <= |outcomes|
    {
      2 * (|outcomes| - next) + CountRunning(workers) + CountUnfinished(workers)
    }

    constructor (outcomes: seq<Settled>, limit: nat)
      ensures Valid() && this.outcomes == outcomes && this.limit == limit && workers == seq(limit, _ => Ready)
      ensures fresh(settled)
    {
      this.outcomes, this.limit := outcomes, limit;
      settled := new Option<Settled>[|outcomes|](_ => None);
      next := 0;
      workers := seq(limit, _ => Ready);
      claims := [];
    }

    /** In every state the pool reaches at most `limit` records are running, and those
        claimed and not settled are. */
    lemma AtMostLimit()
      requires Valid()
      ensures CountRunning(workers) <= limit
      ensures forall running: set<nat> :: (forall i :: i in running ==> HasRunner(workers, i)) ==> |running| <= limit
      ensures forall i :: 0 <= i < next && settled[i] == None ==> HasRunner(workers, i)
    {
      forall running: set<nat> | forall i :: i in running ==> HasRunner(workers, i)
        ensures |running| <= limit
      {
        RunningAreCounted(workers, running);
      }
    }

    /** A ready worker claims the next record and starts it, or stops. */
    method Claim(w: nat)
      requires Valid() && w < |workers| && workers[w].Ready?
      modifies this
      ensures Valid() && workers == old(workers)[w := if old(next) < |outcomes| then Running(old(next)) else Finished]
      ensures Remaining() == old(Remaining()) - 1
      ensures claims == old(claims) + if old(next) < |outcomes| then [old(next)] else []
    {
      hide HasRunner;
      if next < |outcomes| {
        CountsAfter(workers, w, Running(next));
        RunnersAfter(workers, w, Running(next));
        claims := claims + [next];
        workers := workers[w := Running(next)];
        next := next + 1;
      } else {
        CountsAfter(workers, w, Finished);
        RunnersAfter(workers, w, Finished);
        workers := workers[w := Finished];
      }
    }

    /** A worker's record settles: its outcome goes to the record's own entry. */
    method Complete(w: nat)
      requires Valid() && w < |workers| && workers[w].Running?
      modifies this`workers, settled
      ensures Valid() && workers == old(workers)[w := Ready]
      ensures Remaining() == old(Remaining()) - 1 && claims == old(claims)
      ensures settled[..] == old(settled[..])[old(workers)[w].idx := Some(outcomes[old(workers)[w].idx])]
    {
      var idx := workers[w].idx;
      CountsAfter(workers, w, Ready);
      settled[idx] := Some(outcomes[idx]);
      workers := workers[w := Ready];
      forall i | i != idx && HasRunner(old(workers), i)
        ensures HasRunner(workers, i)
      {
        var v :| 0 <= v < |workers| && old(workers)[v] == Running(i);
        assert workers[v] == Running(i);
      }
    }

    /** `Promise.all` over the workers, whichever of them moves next each time.
        Every record is claimed once, in order, and ends with its own outcome. */
    method RunAll()
      requires Valid() && |workers| > 0
      modifies this, settled
      ensures Valid() && |workers| == old(|workers|)
      ensures claims == Range(|outcomes|)
      ensures settled[..] == seq(|outcomes|, i requires 0 <= i < |outcomes| => Some(outcomes[i]))
    {
      while exists w :: 0 <= w < |workers| && !workers[w].Finished?
        invariant Valid() && |workers| == old(|workers|)
        decreases Remaining()
      {
        var w :| 0 <= w < |workers| && !workers[w].Finished?;
        if workers[w].Ready? {
          Claim(w);
        } else {
          Complete(w);
        }
      }
      assert workers[0].Finished?;
      assert forall i :: 0 <= i < |outcomes| ==> !HasRunner(workers, i);
    }
  }

  /** `settleConcurrent`; an unset limit is `None`. */
  method SettleConcurrent(outcomes: seq<Settled>, limit: Option<nat>) returns (settled: seq<Settled>)
    requires limit.Some? ==> limit.value >= 1
    ensures settled == outcomes
  {
    if limit.None? || |outcomes| <= limit.value {
      return outcomes;
    }
    var pool := new WorkerPool(outcomes, limit.value);
    pool.RunAll();
    settled := [];
    for i := 0 to |outcomes|
      invariant pool.settled[..] == seq(|outcomes|, i requires 0 <= i < |outcomes| => Some(outcomes[i]))
      invariant settled == outcomes[..i]
    {
      assert pool.settled[i] == pool.settled[..][i];
      settled := settled + [pool.settled[i].value];
    }
  }

  lemma {:induction false} RunningAreCounted(workers: seq<Worker>, running: set<nat>)
    requires forall i :: i in running ==> exists w :: 0 <= w < |workers| && workers[w] == Running(i)
    ensures |running| <= CountRunning(workers)
  {
    if workers == [] {
      assert running == {};
    } else {
      var n := |workers| - 1;
      var last := workers[n];
      var rest := if last.Running? then running - {last.idx} else running;
      forall i | i in rest
        ensures exists w :: 0 <= w < n && workers[..n][w] == Running(i)
      {
        var w :| 0 <= w < |workers| && workers[w] == Running(i);
        assert w < n && workers[..n][w] == Running(i);
      }
      RunningAreCounted(workers[..n], rest);
      assert running <= rest + if last.Running? then {last.idx} else {};
      if last.Running? && last.idx in running {
        assert running == rest + {last.idx};
      } else {
        assert running == rest;
      }
    }
  }

  /** The index of the first rejected record, or the length. */
  function FirstRejected(outcomes: seq<Settled>): (k: nat)
    ensures k <= |outcomes| && (k < |outcomes| ==> outcomes[k].Rejected?)
    ensures forall i :: 0 <= i < k ==> outcomes[i].Fulfilled?
  {
    if outcomes == [] || outcomes[0].Rejected? then 0 else 1 + FirstRejected(outcomes[1..])
  }

  /** What a FIFO batch settles to: the outcomes up to and with the first
      rejection, and every record after it rejected as unprocessed. */
  function Sequential(outcomes: seq<Settled>): (settled: seq<Settled>)
    ensures |settled| == |outcomes|
  {
    var k := FirstRejected(outcomes);
    seq(|outcomes|, i requires 0 <= i < |outcomes| => if i <= k then outcomes[i] else Rejected(UNPROCESSED))
  }

  /** So a record keeps its own outcome exactly as long as none before it was rejected. */
  lemma SequentialAt(outcomes: seq<Settled>, i: nat)
    requires i < |outcomes|
    ensures (forall j :: 0 <= j < i ==> outcomes[j].Fulfilled?) ==> Sequential(outcomes)[i] == outcomes[i]
    ensures (exists j :: 0 <= j < i && outcomes[j].Rejected?) ==> Sequential(outcomes)[i] == Rejected(UNPROCESSED)
  {
    var k := FirstRejected(outcomes);
    if k < i {
      assert !outcomes[k].Fulfilled?;
    }
  }

  /** `settleSequential`; `ran` lists the records that were run. */
  method SettleSequential(outcomes: seq<Settled>) returns (settled: seq<Settled>, ghost ran: seq<nat>)
    ensures settled == Sequential(outcomes)
    ensures ran == Range(if FirstRejected(outcomes) < |outcomes| then FirstRejected(outcomes) + 1 else |outcomes|)
  {
    settled, ran := [], [];
    var idx := 0;
    while idx < |outcomes|
      invariant 0 <= idx <= |outcomes| && idx <= FirstRejected(outcomes)
      invariant settled == outcomes[..idx] && ran == Range(idx)
    {
      settled := settled + [outcomes[idx]];
      ran := ran + [idx];
      if outcomes[idx].Rejected? {
        break;
      }
      idx := idx + 1;
    }
    idx := idx + 1;
    while idx < |outcomes|
      invariant settled == Sequential(outcomes)[..if idx < |outcomes| then idx else |outcomes|]
      invariant idx > FirstRejected(outcomes)
    {
      settled := settled + [Rejected(UNPROCESSED)];
      idx := idx + 1;
    }
  }

  /** A rejected step fails a durable invocation, unless its record never parsed;
      in FIFO nothing after such a record is looked at. */
  ghost predicate FailsDurable(settled: seq<Settled>, unparsed: seq<bool>, fifo: bool, k: nat)
    requires |unparsed| == |settled|
  {
    && k < |settled| && settled[k].Rejected? && !unparsed[k]
    && forall j :: 0 <= j < k ==> settled[j].Fulfilled? || (unparsed[j] && !fifo)
  }

  /** The scan of a durable invocation's settled records: what it throws. */
  method DurableScan(settled: seq<Settled>, unparsed: seq<bool>, fifo: bool) returns (thrown: Option<int>)
    requires |unparsed| == |settled|
    ensures thrown.Some? ==>
      exists k: nat :: FailsDurable(settled, unparsed, fifo, k) && thrown.value == settled[k].reason
    ensures thrown.None? ==> forall k :: !FailsDurable(settled, unparsed, fifo, k)
  {
    for idx := 0 to |settled|
      invariant forall j :: 0 <= j < idx ==> settled[j].Fulfilled? || (unparsed[j] && !fifo)
    {
      if settled[idx].Fulfilled? {
        continue;
      }
      if !unparsed[idx] {
        assert FailsDurable(settled, unparsed, fifo, idx);
        return Some(settled[idx].reason);
      }
      if fifo {
        break;
      }
    }
    thrown := None;
  }
}
