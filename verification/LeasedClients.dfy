/** Database clients shared by interleaved invocations: each invocation leases the
    client it was handed, and a client that left the cache is ended once nobody
    holds it. The cache slot belongs to the environment. */
module LeasedClients {
  import opened Wrappers
  import opened Numbers

  type Client = nat
  type Request = nat
  type Promise = nat

  datatype Held = Held(count: nat, retired: bool)

  /** One `end()`, with the requests holding the client at that time. */
  datatype EndCall = EndCall(client: Client, holders: set<Request>)

  /** A connect that found another one in the cache and waits for it. */
  datatype Waiting = Waiting(current: Promise, client: Client)

  /** `ends` lists the `end()` calls; `connected`, `retired` and `lost` are the
      clients a cached connect brought, those `retire` was called on, and those
      `live` forgot. */
  datatype Pool = Pool(cacheExpiry: int, holders: map<Request, Client>, leases: map<Client, Held>,
                       live: Option<Client>, slot: Option<Promise>, waiting: map<Promise, Waiting>,
                       ends: seq<EndCall>, connected: set<Client>, retired: set<Client>, lost: set<Client>)

  /** What can happen next, in any order. `Slot` is the environment setting or
      clearing the cache; `Await`ed tells how the connect waited for ended. */
  datatype Event =
    | Connected(promise: Promise, client: Client)
    | ConnectFailed(promise: Promise)
    | Awaited(promise: Promise, ok: bool)
    | Slot(value: Option<Promise>)
    | Broken(promise: Promise, client: Client)
    | Leased(request: Request, client: Client)
    | EndOwn(request: Request)
    | Released(request: Request)

  function HoldersOf(holders: map<Request, Client>, client: Client): set<Request> {
    set request | request in holders && holders[request] == client
  }

  // ---- Steps ----

  function Begin(cacheExpiry: int): Pool {
    Pool(cacheExpiry, map[], map[], None, None, map[], [], {}, {}, {})
  }

  function Close(p: Pool, client: Client): Pool {
    p.(ends := p.ends + [EndCall(client, HoldersOf(p.holders, client))])
  }

  function Retire(p: Pool, client: Client): Pool {
    var p' := p.(retired := p.retired + {client});
    if client !in p.leases then Close(p', client)
    else p'.(leases := p.leases[client := p.leases[client].(retired := true)])
  }

  function Lease(p: Pool, request: Request, client: Client): Pool {
    p.(holders := p.holders[request := client],
       leases := p.leases[client := if client in p.leases then p.leases[client].(count := p.leases[client].count + 1)
                                    else Held(1, false)])
  }

  function Release(p: Pool, request: Request): Pool
    requires Counted(p)
  {
    if request !in p.holders then p
    else
      var client := p.holders[request];
      var held := p.leases[client];
      var p' := p.(holders := p.holders - {request});
      if held.count > 1 then p'.(leases := p.leases[client := held.(count := held.count - 1)])
      else
        var p'' := p'.(leases := p.leases - {client});
        if held.retired then Close(p'', client) else p''
  }

  function Adopt(p: Pool, client: Client): Pool {
    (if p.live.Some? then Retire(p, p.live.value) else p).(live := Some(client))
  }

  function OnConnected(p: Pool, promise: Promise, client: Client): Pool {
    if p.cacheExpiry == 0 then p
    else
      var p' := p.(connected := p.connected + {client});
      if p.slot.None? || p.slot.value == promise then Adopt(p', client)
      else p'.(waiting := p.waiting[promise := Waiting(p.slot.value, client)])
  }

  function OnAwaited(p: Pool, promise: Promise, ok: bool): Pool {
    if promise !in p.waiting then p
    else
      var p' := p.(waiting := p.waiting - {promise});
      if ok then Retire(p', p.waiting[promise].client) else Adopt(p', p.waiting[promise].client)
  }

  /** The client the cache handed out was flagged broken. */
  function OnBroken(p: Pool, promise: Promise, client: Client): Pool {
    if p.cacheExpiry != 0 && p.slot != Some(promise) then p
    else
      Retire(p, client).(slot := None, live := None,
                         lost := if p.live.Some? && p.live.value != client then p.lost + {p.live.value} else p.lost)
  }

  function Step(p: Pool, e: Event): Pool
    requires Counted(p)
  {
    match e
    case Connected(promise, client) => if promise in p.waiting then p else OnConnected(p, promise, client)
    case ConnectFailed(promise) => if p.slot == Some(promise) then p.(slot := None) else p
    case Awaited(promise, ok) => OnAwaited(p, promise, ok)
    case Slot(value) => p.(slot := value)
    case Broken(promise, client) => OnBroken(p, promise, client)
    case Leased(request, client) => Lease(p, request, client)
    case EndOwn(request) =>
      if p.cacheExpiry == 0 && request in p.holders then Close(p, p.holders[request]) else p
    case Released(request) => Release(p, request)
  }

  // ---- What every step keeps ----

  /** A held client has a lease, and its count covers its holders. */
  ghost predicate Counted(p: Pool)
  {
    && (forall request :: request in p.holders ==> p.holders[request] in p.leases)
    && (forall client :: client in p.leases ==>
          p.leases[client].count >= 1 && p.leases[client].count >= |HoldersOf(p.holders, client)|)
  }

  /** The count is the number of requests holding the client. */
  ghost predicate Exact(p: Pool)
  {
    forall client :: client in p.leases ==> p.leases[client].count == |HoldersOf(p.holders, client)|
  }

  /** Unless clients are per invocation, none is ended while a request holds it. */
  ghost predicate EndedUnheld(p: Pool)
  {
    p.cacheExpiry != 0 ==> forall k :: 0 <= k < |p.ends| ==> p.ends[k].holders == {}
  }

  ghost predicate IsEnded(p: Pool, client: Client)
  {
    exists k :: 0 <= k < |p.ends| && p.ends[k].client == client
  }

  /** A retired client was ended, or is still leased and will be. */
  ghost predicate RetiredEnd(p: Pool)
  {
    forall client :: client in p.retired ==> IsEnded(p, client) || (client in p.leases && p.leases[client].retired)
  }

  /** Every connected client is live, waiting for its turn, retired, or lost. */
  ghost predicate Tracked(p: Pool)
  {
    forall client :: client in p.connected ==>
      || p.live == Some(client)
      || client in p.retired
      || client in p.lost
      || exists promise :: promise in p.waiting && p.waiting[promise].client == client
  }

  ghost predicate Valid(p: Pool)
  {
    Counted(p) && EndedUnheld(p) && RetiredEnd(p) && Tracked(p)
  }

  lemma HoldersAdd(holders: map<Request, Client>, request: Request, client: Client, other: Client)
    ensures
      var before, after := HoldersOf(holders, other), HoldersOf(holders[request := client], other);
      && |after| <= |before| + Once(other == client)
      && (request !in holders ==> |after| == |before| + Once(other == client))
      && (request in holders && holders[request] == client ==> |after| == |before|)
  {
    var before, after := HoldersOf(holders, other), HoldersOf(holders[request := client], other);
    if other == client {
      assert after == before + {request};
    } else {
      assert after == before - {request};
    }
  }

  lemma HoldersRemove(holders: map<Request, Client>, request: Request, other: Client)
    requires request in holders
    ensures
      |HoldersOf(holders - {request}, other)| + Once(holders[request] == other) == |HoldersOf(holders, other)|
  {
    assert HoldersOf(holders - {request}, other) == HoldersOf(holders, other) - {request};
  }

  lemma NoHolders(holders: map<Request, Client>, client: Client)
    requires |HoldersOf(holders, client)| == 0
    ensures forall request :: request in holders ==> holders[request] != client
  {
    forall request | request in holders
      ensures holders[request] != client
    {
      assert request !in HoldersOf(holders, client);
    }
  }

  /** Closing an unheld client, or any when clients are per invocation. */
  lemma CloseKeeps(p: Pool, client: Client)
    requires EndedUnheld(p)
    requires p.cacheExpiry != 0 ==> forall request :: request in p.holders ==> p.holders[request] != client
    ensures
      var p' := Close(p, client);
      EndedUnheld(p') && IsEnded(p', client) && forall c :: IsEnded(p, c) ==> IsEnded(p', c)
  {
    var p' := Close(p, client);
    assert p'.ends[|p.ends|].client == client;
    forall c | IsEnded(p, c)
      ensures IsEnded(p', c)
    {
      var k :| 0 <= k < |p.ends| && p.ends[k].client == c;
      assert p'.ends[k].client == c;
    }
    if p.cacheExpiry != 0 {
      assert HoldersOf(p.holders, client) == {};
    }
  }

  lemma RetireKeeps(p: Pool, client: Client)
    requires Counted(p) && EndedUnheld(p) && RetiredEnd(p)
    ensures
      var p' := Retire(p, client);
      && Counted(p') && EndedUnheld(p') && RetiredEnd(p') && (Exact(p') <==> Exact(p))
      && p'.connected == p.connected && p'.live == p.live && p'.waiting == p.waiting && p'.lost == p.lost
      && p'.retired == p.retired + {client} && p'.holders == p.holders
  {
    var p' := p.(retired := p.retired + {client});
    if client !in p.leases {
      CloseKeeps(p', client);
    }
    hide HoldersOf;
  }

  lemma AdoptKeeps(p: Pool, client: Client)
    requires Counted(p) && EndedUnheld(p) && RetiredEnd(p)
    requires Tracked(p.(connected := p.connected - {client}))
    ensures Valid(Adopt(p, client)) && (Exact(Adopt(p, client)) <==> Exact(p))
  {
    if p.live.Some? {
      RetireKeeps(p, p.live.value);
    }
    hide HoldersOf, Retire, EndedUnheld, RetiredEnd;
  }

  lemma OnConnectedKeeps(p: Pool, promise: Promise, client: Client)
    requires Valid(p) && promise !in p.waiting
    ensures Valid(OnConnected(p, promise, client)) && (Exact(OnConnected(p, promise, client)) <==> Exact(p))
  {
    hide HoldersOf, Adopt;
    if p.cacheExpiry != 0 {
      var p' := p.(connected := p.connected + {client});
      if p.slot.None? || p.slot.value == promise {
        TrackedBut(p, p', client);
        AdoptKeeps(p', client);
      } else {
        var p'' := p'.(waiting := p.waiting[promise := Waiting(p.slot.value, client)]);
        WaitTracked(p, p'', promise, client);
      }
    }
  }

  lemma TrackedBut(p: Pool, p': Pool, client: Client)
    requires Tracked(p) && p'.connected - {client} <= p.connected
    requires p'.live == p.live && p'.retired == p.retired && p'.lost == p.lost
    requires forall other ::
      other in p.waiting && p.waiting[other].client != client ==>
        other in p'.waiting && p'.waiting[other] == p.waiting[other]
    ensures Tracked(p'.(connected := p'.connected - {client}))
  {
  }

  lemma WaitTracked(p: Pool, p': Pool, promise: Promise, client: Client)
    requires Tracked(p) && promise !in p.waiting && p'.connected == p.connected + {client}
    requires p'.live == p.live && p'.retired == p.retired && p'.lost == p.lost
    requires p.slot.Some? && p'.waiting == p.waiting[promise := Waiting(p.slot.value, client)]
    ensures Tracked(p')
  {
    assert p'.waiting[promise].client == client;
    forall c | c in p.connected && exists other :: other in p.waiting && p.waiting[other].client == c
      ensures exists other :: other in p'.waiting && p'.waiting[other].client == c
    {
      var other :| other in p.waiting && p.waiting[other].client == c;
      assert p'.waiting[other].client == c;
    }
  }

  lemma OnAwaitedKeeps(p: Pool, promise: Promise, ok: bool)
    requires Valid(p)
    ensures Valid(OnAwaited(p, promise, ok)) && (Exact(OnAwaited(p, promise, ok)) <==> Exact(p))
  {
    hide HoldersOf, Adopt, Retire;
    if promise in p.waiting {
      var client := p.waiting[promise].client;
      var p' := p.(waiting := p.waiting - {promise});
      TrackedBut(p, p', client);
      if ok {
        RetireKeeps(p', client);
      } else {
        AdoptKeeps(p', client);
      }
    }
  }

  /** Dropping a broken client loses sight of another one exactly when that other
      one was live. */
  lemma OnBrokenKeeps(p: Pool, promise: Promise, client: Client)
    requires Valid(p)
    ensures
      var p' := OnBroken(p, promise, client);
      && Valid(p') && (Exact(p') <==> Exact(p))
      && p'.lost - p.lost ==
         if (p.cacheExpiry == 0 || p.slot == Some(promise)) && p.live.Some? && p.live.value != client
         then {p.live.value} - p.lost else {}
  {
    hide HoldersOf, Retire;
    if p.cacheExpiry == 0 || p.slot == Some(promise) {
      RetireKeeps(p, client);
    }
  }

  /** A lease keeps the counts exact if and only if the request held nothing. */
  lemma LeaseKeeps(p: Pool, request: Request, client: Client)
    requires Valid(p)
    ensures
      var p' := Lease(p, request, client);
      Valid(p') && (Exact(p) ==> (Exact(p') <==> request !in p.holders))
  {
    var p' := Lease(p, request, client);
    forall c | c in p'.leases
      ensures p'.leases[c].count >= 1 && p'.leases[c].count >= |HoldersOf(p'.holders, c)|
      ensures Exact(p) && request !in p.holders ==> p'.leases[c].count == |HoldersOf(p'.holders, c)|
    {
      HoldersAdd(p.holders, request, client, c);
      if c !in p.leases {
        assert HoldersOf(p.holders, c) == {};
      }
    }
    if Exact(p) && request in p.holders {
      DoubleLease(p, request, client);
    }
    hide HoldersOf, Exact;
  }

  lemma DoubleLease(p: Pool, request: Request, client: Client)
    requires Counted(p) && Exact(p) && request in p.holders
    ensures !Exact(Lease(p, request, client))
  {
    var before := p.holders[request];
    HoldersAdd(p.holders, request, client, before);
    if before != client {
      assert request in HoldersOf(p.holders, before) && request !in HoldersOf(p.holders[request := client], before);
      assert HoldersOf(p.holders[request := client], before) == HoldersOf(p.holders, before) - {request};
    }
  }

  /** The last release of a retired client ends it. */
  lemma ReleaseKeeps(p: Pool, request: Request)
    requires Valid(p)
    ensures
      var p' := Release(p, request);
      Valid(p') && (Exact(p) ==> Exact(p')) && request !in p'.holders
  {
    if request in p.holders {
      var client := p.holders[request];
      ReleaseCounts(p, request);
      ReleaseEnds(p, request);
      hide HoldersOf, Exact;
    }
  }

  lemma ReleaseCounts(p: Pool, request: Request)
    requires Counted(p) && request in p.holders
    ensures Counted(Release(p, request)) && (Exact(p) ==> Exact(Release(p, request)))
  {
    var client := p.holders[request];
    var p' := Release(p, request);
    forall c | c in p'.leases
      ensures p'.leases[c].count >= 1 && p'.leases[c].count >= |HoldersOf(p'.holders, c)|
      ensures Exact(p) ==> p'.leases[c].count == |HoldersOf(p'.holders, c)|
    {
      HoldersRemove(p.holders, request, c);
    }
    if p.leases[client].count == 1 {
      HoldersRemove(p.holders, request, client);
      NoHolders(p.holders - {request}, client);
    }
    hide HoldersOf, Exact;
  }

  lemma ReleaseEnds(p: Pool, request: Request)
    requires Valid(p) && request in p.holders
    ensures
      var p' := Release(p, request);
      EndedUnheld(p') && RetiredEnd(p') && Tracked(p')
  {
    var client := p.holders[request];
    if p.leases[client].count == 1 {
      HoldersRemove(p.holders, request, client);
      NoHolders(p.holders - {request}, client);
      CloseKeeps(p.(holders := p.holders - {request}, leases := p.leases - {client}), client);
    }
    hide HoldersOf, IsEnded;
  }

  /** With exact counts, a retired client nobody holds has been ended: the release
      of its last holder did it, if `retire` did not. */
  lemma RetiredUnheldIsEnded(p: Pool, client: Client)
    requires Valid(p) && Exact(p) && client in p.retired
    requires forall request :: request in p.holders ==> p.holders[request] != client
    ensures IsEnded(p, client)
  {
    assert HoldersOf(p.holders, client) == {};
  }

  lemma EndOwnKeeps(p: Pool, client: Client)
    requires Valid(p) && p.cacheExpiry == 0
    ensures Valid(Close(p, client)) && (Exact(Close(p, client)) <==> Exact(p))
  {
    CloseKeeps(p, client);
    hide HoldersOf, IsEnded;
  }

  lemma StepKeeps(p: Pool, e: Event)
    requires Valid(p)
    ensures
      var p' := Step(p, e);
      && Valid(p')
      && p'.cacheExpiry == p.cacheExpiry
      && (Exact(p) && (e.Leased? ==> e.request !in p.holders) ==> Exact(p'))
  {
    StepFrame(p, e);
    match e
    case Connected(promise, client) =>
      if promise !in p.waiting {
        OnConnectedKeeps(p, promise, client);
      }
    case Awaited(promise, ok) => OnAwaitedKeeps(p, promise, ok);
    case Broken(promise, client) => OnBrokenKeeps(p, promise, client);
    case Leased(request, client) => LeaseKeeps(p, request, client);
    case Released(request) => ReleaseKeeps(p, request);
    case EndOwn(request) =>
      if p.cacheExpiry == 0 && request in p.holders {
        EndOwnKeeps(p, p.holders[request]);
      }
    case ConnectFailed(_) => SlotKeeps(p, None);
    case Slot(value) => SlotKeeps(p, value);
  }

  lemma SlotKeeps(p: Pool, slot: Option<Promise>)
    requires Valid(p)
    ensures Valid(p.(slot := slot)) && (Exact(p.(slot := slot)) <==> Exact(p))
  {
    hide HoldersOf;
  }

  lemma StepFrame(p: Pool, e: Event)
    requires Counted(p)
    ensures Step(p, e).cacheExpiry == p.cacheExpiry
  {
    hide HoldersOf;
  }

  // ---- Runs ----

  /** No request leases again before it released. */
  ghost predicate LeasesOnce(p: Pool, events: seq<Event>)
    requires Valid(p)
    decreases |events|
  {
    events != [] ==>
      && (events[0].Leased? ==> events[0].request !in p.holders)
      && (StepKeeps(p, events[0]); LeasesOnce(Step(p, events[0]), events[1..]))
  }

  ghost function Run(p: Pool, events: seq<Event>): (p': Pool)
    requires Valid(p)
    ensures Valid(p') && p'.cacheExpiry == p.cacheExpiry
    decreases |events|
  {
    if events == [] then p
    else
      StepKeeps(p, events[0]);
      Run(Step(p, events[0]), events[1..])
  }

  lemma BeginValid(cacheExpiry: int)
    ensures Valid(Begin(cacheExpiry)) && Exact(Begin(cacheExpiry))
  {
  }

  /** Every interleaving of connects, refreshes, reconnects, leases and releases:
      with shared clients none is ended while a request holds it; while requests
      lease once each, the counts are exact and a retired client that is no longer
      held has been ended. */
  lemma {:induction false} EveryRun(p: Pool, events: seq<Event>, client: Client)
    requires Valid(p) && Exact(p)
    ensures
      var p' := Run(p, events);
      && (p.cacheExpiry != 0 ==> forall k :: 0 <= k < |p'.ends| ==> p'.ends[k].holders == {})
      && (LeasesOnce(p, events) ==>
            && Exact(p')
            && (client in p'.retired && (forall request :: request in p'.holders ==> p'.holders[request] != client) ==>
                  IsEnded(p', client)))
    decreases |events|
  {
    if events == [] {
      if client in p.retired && forall request :: request in p.holders ==> p.holders[request] != client {
        RetiredUnheldIsEnded(p, client);
      }
    } else {
      StepKeeps(p, events[0]);
      var p1 := Step(p, events[0]);
      if LeasesOnce(p, events) {
        EveryRun(p1, events[1..], client);
      }
      hide Step, Exact, IsEnded, HoldersOf, Counted, RetiredEnd, Tracked;
    }
  }

  // ---- Which client goes ----

  /** Exactly this client is retired: marked while it is leased, and ended at once,
      held by nobody, if it is not. */
  ghost predicate Retires(p: Pool, p': Pool, client: Client)
  {
    && p'.retired == p.retired + {client}
    && (client in p.leases ==>
          p'.ends == p.ends && p'.leases == p.leases[client := Held(p.leases[client].count, true)])
    && (client !in p.leases ==> p'.ends == p.ends + [EndCall(client, {})] && p'.leases == p.leases)
  }

  ghost predicate RetiresNone(p: Pool, p': Pool)
  {
    p'.retired == p.retired && p'.ends == p.ends && p'.leases == p.leases
  }

  /** The client is the live one now, and the one before it is retired. */
  ghost predicate TakesOver(p: Pool, p': Pool, client: Client)
  {
    && p'.live == Some(client)
    && (p.live.Some? ==> Retires(p, p', p.live.value))
    && (p.live.None? ==> RetiresNone(p, p'))
  }

  ghost predicate SameHolders(p: Pool, p': Pool)
  {
    p'.cacheExpiry == p.cacheExpiry && p'.holders == p.holders && p'.lost == p.lost
  }

  lemma RetireRetires(p: Pool, client: Client)
    requires Counted(p)
    ensures Retires(p, Retire(p, client), client)
  {
    if client !in p.leases {
      assert HoldersOf(p.holders, client) == {};
    }
  }

  /** A connect that waited: when the other one succeeded, it is its own client that
      goes, and the live one stays; when the other failed, its client takes over. */
  lemma AwaitedDoes(p: Pool, promise: Promise, ok: bool)
    requires Counted(p) && promise in p.waiting
    ensures
      var p', client := Step(p, Awaited(promise, ok)), p.waiting[promise].client;
      && SameHolders(p, p') && p'.slot == p.slot && p'.connected == p.connected
      && p'.waiting == p.waiting - {promise}
      && (ok ==> p'.live == p.live && Retires(p, p', client))
      && (!ok ==> TakesOver(p, p', client))
  {
    var client, p0 := p.waiting[promise].client, p.(waiting := p.waiting - {promise});
    RetireRetires(p0, if ok || p.live.None? then client else p.live.value);
    hide HoldersOf, Retire;
  }

  /** A connect that succeeded: its client takes over when its entry is the cached one
      or there is none, and otherwise it waits for the cached one. A client of a
      single invocation is left alone. */
  lemma ConnectedDoes(p: Pool, promise: Promise, client: Client)
    requires Counted(p) && promise !in p.waiting
    ensures
      var p' := Step(p, Connected(promise, client));
      && SameHolders(p, p') && p'.slot == p.slot
      && if p.cacheExpiry == 0 then p' == p
         else
           && p'.connected == p.connected + {client}
           && if p.slot == None || p.slot == Some(promise) then TakesOver(p, p', client) && p'.waiting == p.waiting
              else
                && RetiresNone(p, p') && p'.live == p.live
                && p'.waiting == p.waiting[promise := Waiting(p.slot.value, client)]
  {
    var p0 := p.(connected := p.connected + {client});
    if p.live.Some? {
      RetireRetires(p0, p.live.value);
    }
    hide HoldersOf, Retire;
  }

  /** A broken client is retired, with its entry dropped, unless another connect has
      replaced the entry: then nothing happens. */
  lemma BrokenDoes(p: Pool, promise: Promise, client: Client)
    requires Counted(p)
    ensures
      var p' := Step(p, Broken(promise, client));
      if p.cacheExpiry == 0 || p.slot == Some(promise) then
        && Retires(p, p', client) && p'.slot == None && p'.live == None
        && p'.holders == p.holders && p'.waiting == p.waiting && p'.connected == p.connected
      else p' == p
  {
    RetireRetires(p, client);
    hide HoldersOf, Retire;
  }

  /** A lease puts the client in the request's hands and counts it; nothing else. */
  lemma LeasedDoes(p: Pool, request: Request, client: Client)
    requires Counted(p)
    ensures
      var p' := Step(p, Leased(request, client));
      && p'.holders == p.holders[request := client] && client in p'.leases
      && p'.leases == p.leases[client := p'.leases[client]]
      && (client in p.leases ==>
            p'.leases[client] == Held(p.leases[client].count + 1, p.leases[client].retired))
      && (client !in p.leases ==> p'.leases[client] == Held(1, false))
      && p' == p.(holders := p'.holders, leases := p'.leases)
  {
  }

  /** A release ends the client if and only if it was the last lease and the client was
      retired; a request that holds nothing releases nothing. */
  lemma ReleasedDoes(p: Pool, request: Request)
    requires Counted(p)
    ensures
      var p' := Step(p, Released(request));
      && (request !in p.holders ==> p' == p)
      && (request in p.holders ==>
            var client := p.holders[request];
            var held := p.leases[client];
            && p' == p.(holders := p.holders - {request}, leases := p'.leases, ends := p'.ends)
            && (held.count > 1 ==>
                  p'.leases == p.leases[client := Held(held.count - 1, held.retired)] && p'.ends == p.ends)
            && (held.count == 1 ==>
                  && p'.leases == p.leases - {client}
                  && p'.ends == p.ends + if held.retired then [EndCall(client, {})] else [])
            && (Exact(p) ==> (held.count > 1 <==>
                  exists other :: other in p.holders && other != request && p.holders[other] == client)))
  {
    if request in p.holders {
      var client := p.holders[request];
      if p.leases[client].count == 1 {
        HoldersRemove(p.holders, request, client);
        NoHolders(p.holders - {request}, client);
        assert HoldersOf(p.holders - {request}, client) == {};
      }
      OthersHold(p, request, client);
    }
    hide HoldersOf;
  }

  lemma OthersHold(p: Pool, request: Request, client: Client)
    requires request in p.holders && p.holders[request] == client
    ensures |HoldersOf(p.holders, client)| > 1 <==>
            exists other :: other in p.holders && other != request && p.holders[other] == client
  {
    var others := HoldersOf(p.holders, client) - {request};
    assert HoldersOf(p.holders, client) == others + {request};
    if other :| other in p.holders && other != request && p.holders[other] == client {
      assert other in others;
    } else {
      assert others == {};
    }
  }

  /** The rest: the environment's cache entry, a failed connect dropping its own, and a
      request ending its own client. */
  lemma OthersDo(p: Pool, promise: Promise, value: Option<Promise>, request: Request)
    requires Counted(p)
    ensures Step(p, Slot(value)) == p.(slot := value)
    ensures Step(p, ConnectFailed(promise)) == if p.slot == Some(promise) then p.(slot := None) else p
    ensures
      var p' := Step(p, EndOwn(request));
      && p' == p.(ends := p'.ends)
      && (p.cacheExpiry == 0 && request in p.holders ==>
            |p'.ends| == |p.ends| + 1 && p'.ends[..|p.ends|] == p.ends
            && p'.ends[|p.ends|].client == p.holders[request])
      && (p.cacheExpiry != 0 || request !in p.holders ==> p'.ends == p.ends)
  {
  }

  /** Shared clients are ended only once retired; only those are marked. */
  ghost predicate EndsRetired(p: Pool)
  {
    && (forall client :: client in p.leases && p.leases[client].retired ==> client in p.retired)
    && (p.cacheExpiry != 0 ==> forall k :: 0 <= k < |p.ends| ==> p.ends[k].client in p.retired)
  }

  lemma EndsRetiredKeeps(p: Pool, e: Event)
    requires Counted(p) && EndsRetired(p)
    ensures EndsRetired(Step(p, e))
  {
    match e
    case Connected(promise, client) =>
      if promise !in p.waiting {
        ConnectedDoes(p, promise, client);
        hide Step, HoldersOf;
      }
    case Awaited(promise, ok) =>
      if promise in p.waiting {
        AwaitedDoes(p, promise, ok);
        hide Step, HoldersOf;
      }
    case Broken(promise, client) =>
      BrokenDoes(p, promise, client);
      StepFrame(p, e);
      hide Step, HoldersOf;
    case Released(request) =>
      ReleasedDoes(p, request);
      hide Step, HoldersOf, Exact;
    case _ => hide HoldersOf;
  }

  /** An event that leaves the cached entry of `promise` and its client alone. */
  predicate Spares(p: Pool, e: Event, promise: Promise, client: Client) {
    match e
    case Connected(other, _) => other != promise
    case ConnectFailed(other) => other != promise
    case Awaited(other, ok) => other in p.waiting ==> ok && p.waiting[other].client != client
    case Slot(value) => value == Some(promise)
    case Broken(other, _) => other != promise
    case Leased(_, _) => true
    case EndOwn(_) => true
    case Released(_) => true
  }

  ghost predicate AllSpare(p: Pool, events: seq<Event>, promise: Promise, client: Client)
    requires Valid(p)
    decreases |events|
  {
    events != [] ==>
      && Spares(p, events[0], promise, client)
      && (StepKeeps(p, events[0]); AllSpare(Step(p, events[0]), events[1..], promise, client))
  }

  /** The client of the cached entry: live, and not retired. */
  ghost predicate Cached(p: Pool, promise: Promise, client: Client)
  {
    p.slot == Some(promise) && p.live == Some(client) && client !in p.retired
  }

  lemma CachedStep(p: Pool, e: Event, promise: Promise, client: Client)
    requires Counted(p) && p.cacheExpiry != 0 && Cached(p, promise, client) && Spares(p, e, promise, client)
    ensures Cached(Step(p, e), promise, client)
  {
    match e
    case Connected(other, another) =>
      if other !in p.waiting {
        ConnectedDoes(p, other, another);
        hide Step, HoldersOf;
      }
    case Awaited(other, ok) =>
      if other in p.waiting {
        AwaitedDoes(p, other, ok);
        hide Step, HoldersOf;
      }
    case Released(request) =>
      ReleasedDoes(p, request);
      hide Step, HoldersOf, Exact;
    case _ => hide HoldersOf;
  }

  /** Over every run: while its entry is the cached one, a shared client stays live and
      is not ended, whatever other connects, refreshes and requests do, as long as no
      connect that waits is told the other one failed. */
  lemma {:induction false} CachedStays(p: Pool, events: seq<Event>, promise: Promise, client: Client)
    requires Valid(p) && EndsRetired(p) && p.cacheExpiry != 0
    requires Cached(p, promise, client) && AllSpare(p, events, promise, client)
    ensures
      var p' := Run(p, events);
      Cached(p', promise, client) && EndsRetired(p') && !IsEnded(p', client)
    decreases |events|
  {
    if events != [] {
      StepKeeps(p, events[0]);
      CachedStep(p, events[0], promise, client);
      EndsRetiredKeeps(p, events[0]);
      hide Step, Spares, Cached, EndsRetired, Valid, IsEnded;
      CachedStays(Step(p, events[0]), events[1..], promise, client);
    }
  }

  // ---- What a second lease costs ----

  /** How far the count of a client exceeds its holders. */
  function Surplus(p: Pool, client: Client): int {
    if client in p.leases then p.leases[client].count - |HoldersOf(p.holders, client)| else 0
  }

  /** The lease takes from the client a request that still holds it. */
  predicate Displaces(p: Pool, e: Event, client: Client) {
    e.Leased? && e.request in p.holders && p.holders[e.request] == client
  }

  lemma HoldersReplaced(holders: map<Request, Client>, request: Request, client: Client, other: Client)
    ensures
      |HoldersOf(holders[request := client], other)| + Once(request in holders && holders[request] == other) ==
      |HoldersOf(holders, other)| + Once(other == client)
  {
    var before, after := HoldersOf(holders, other), HoldersOf(holders[request := client], other);
    if other == client {
      assert after == before + {request};
    } else {
      assert after == before - {request};
    }
  }

  lemma LeaseSurplus(p: Pool, request: Request, client: Client, other: Client)
    requires Counted(p)
    ensures Surplus(Lease(p, request, client), other) ==
            Surplus(p, other) + Once(Displaces(p, Leased(request, client), other))
  {
    HoldersReplaced(p.holders, request, client, other);
    if other !in p.leases {
      assert HoldersOf(p.holders, other) == {};
    }
  }

  lemma ReleaseSurplus(p: Pool, request: Request, other: Client)
    requires Counted(p)
    ensures Surplus(Release(p, request), other) == Surplus(p, other)
  {
    if request in p.holders {
      HoldersRemove(p.holders, request, other);
      if p.holders[request] == other {
        assert request in HoldersOf(p.holders, other);
      }
    }
    hide HoldersOf;
  }

  /** Each step raises the surplus of exactly the client a second lease displaces. */
  lemma StepSurplus(p: Pool, e: Event, client: Client)
    requires Counted(p)
    ensures Surplus(Step(p, e), client) == Surplus(p, client) + Once(Displaces(p, e, client))
  {
    match e
    case Leased(request, leased) => LeaseSurplus(p, request, leased, client);
    case Released(request) => ReleaseSurplus(p, request, client);
    case EndOwn(_) => hide HoldersOf;
    case Connected(_, _) => hide HoldersOf;
    case ConnectFailed(_) => hide HoldersOf;
    case Awaited(_, _) => hide HoldersOf;
    case Slot(_) => hide HoldersOf;
    case Broken(_, _) => hide HoldersOf;
  }

  /** How often a run leases away a request the client still had. */
  ghost function Displacements(p: Pool, events: seq<Event>, client: Client): nat
    requires Valid(p)
    decreases |events|
  {
    if events == [] then 0
    else
      StepKeeps(p, events[0]);
      Once(Displaces(p, events[0], client)) + Displacements(Step(p, events[0]), events[1..], client)
  }

  /** Over every run the count of a client comes to exceed its holders by one for
      each second lease that took a request from it, and by nothing else. */
  lemma {:induction false} SurplusIsDisplacements(p: Pool, events: seq<Event>, client: Client)
    requires Valid(p)
    ensures Surplus(Run(p, events), client) == Surplus(p, client) + Displacements(p, events, client)
    decreases |events|
  {
    if events != [] {
      StepKeeps(p, events[0]);
      StepSurplus(p, events[0], client);
      hide Step, Valid, Surplus, Displaces;
      SurplusIsDisplacements(Step(p, events[0]), events[1..], client);
    }
  }

  lemma {:induction false} InexactStays(p: Pool, events: seq<Event>)
    requires Valid(p) && !Exact(p)
    ensures !Exact(Run(p, events))
  {
    var client :| client in p.leases && p.leases[client].count != |HoldersOf(p.holders, client)|;
    SurplusIsDisplacements(p, events, client);
    assert Surplus(p, client) > 0;
    assert Surplus(Run(p, events), client) > 0;
  }

  /** The counts end exact if and only if no request leased again before it
      released. */
  lemma {:induction false} ExactIffLeasesOnce(p: Pool, events: seq<Event>)
    requires Valid(p) && Exact(p)
    ensures Exact(Run(p, events)) <==> LeasesOnce(p, events)
    decreases |events|
  {
    if events != [] {
      var e := events[0];
      StepKeeps(p, e);
      if e.Leased? && e.request in p.holders {
        LeaseKeeps(p, e.request, e.client);
        InexactStays(Step(p, e), events[1..]);
      } else {
        ExactIffLeasesOnce(Step(p, e), events[1..]);
      }
      hide Step, Exact, Valid;
    }
  }

  /** The `end()` calls on a client. */
  function EndCount(ends: seq<EndCall>, client: Client): nat {
    if ends == [] then 0
    else EndCount(ends[..|ends| - 1], client) + Once(ends[|ends| - 1].client == client)
  }

  lemma CloseCounts(p: Pool, other: Client, client: Client)
    ensures EndCount(Close(p, other).ends, client) == EndCount(p.ends, client) + Once(other == client)
  {
    assert Close(p, other).ends[..|p.ends|] == p.ends;
  }

  lemma RetireOfLeased(p: Pool, other: Client, client: Client)
    requires client in p.leases
    ensures EndCount(Retire(p, other).ends, client) == EndCount(p.ends, client)
  {
    CloseCounts(p.(retired := p.retired + {other}), other, client);
    hide HoldersOf, EndCount;
  }

  lemma ReleaseOfSurplus(p: Pool, request: Request, client: Client)
    requires Counted(p) && Surplus(p, client) > 0
    ensures EndCount(Release(p, request).ends, client) == EndCount(p.ends, client)
  {
    if request in p.holders {
      var held := p.holders[request];
      assert request in HoldersOf(p.holders, held);
      CloseCounts(p.(holders := p.holders - {request}, leases := p.leases - {held}), held, client);
    }
    hide HoldersOf, EndCount;
  }

  /** While clients are shared, no step ends a client that has a surplus. */
  lemma SurplusNotEnded(p: Pool, e: Event, client: Client)
    requires Valid(p) && p.cacheExpiry != 0 && Surplus(p, client) > 0
    ensures EndCount(Step(p, e).ends, client) == EndCount(p.ends, client)
  {
    if e.Released? {
      ReleaseOfSurplus(p, e.request, client);
    } else if e.Broken? {
      RetireOfLeased(p, e.client, client);
    } else if e.Connected? && p.live.Some? {
      RetireOfLeased(p.(connected := p.connected + {e.client}), p.live.value, client);
    } else if e.Awaited? && e.promise in p.waiting {
      var p' := p.(waiting := p.waiting - {e.promise});
      RetireOfLeased(p', if e.ok || p.live.None? then p.waiting[e.promise].client else p.live.value, client);
    }
    hide HoldersOf, EndCount, Retire, Release;
  }

  /** What a second lease costs on runs: while clients are shared, the client it
      displaced stays leased and is never ended any more, whatever follows. */
  lemma {:induction false} SecondLeaseLeaks(p: Pool, events: seq<Event>, client: Client)
    requires Valid(p) && p.cacheExpiry != 0 && Surplus(p, client) > 0
    ensures
      var p' := Run(p, events);
      client in p'.leases && EndCount(p'.ends, client) == EndCount(p.ends, client)
    decreases |events|
  {
    if events != [] {
      StepKeeps(p, events[0]);
      StepSurplus(p, events[0], client);
      SurplusNotEnded(p, events[0], client);
      hide Step, EndCount, Displaces, Valid;
      assert Surplus(Step(p, events[0]), client) > 0;
      hide Surplus;
      SecondLeaseLeaks(Step(p, events[0]), events[1..], client);
    }
  }

  /** The pool when client 7 is live and request 5 leased it once, twice, and when
      the client was then dropped as broken. */
  const LEASED_ONCE: Pool :=
    Pool(-1, map[5 := 7], map[7 := Held(1, false)], Some(7), Some(1), map[], [], {7}, {}, {})
  const LEASED_TWICE: Pool := LEASED_ONCE.(leases := map[7 := Held(2, false)])
  const DROPPED: Pool := LEASED_TWICE.(leases := map[7 := Held(2, true)], retired := {7}, slot := None, live := None)
  const RELEASED: Pool := DROPPED.(holders := map[], leases := map[7 := Held(1, true)])

  lemma LeasesClient(rest: seq<Event>)
    ensures Valid(Begin(-1)) && Valid(LEASED_ONCE)
    ensures Run(Begin(-1), [Slot(Some(1)), Connected(1, 7), Leased(5, 7)] + rest) == Run(LEASED_ONCE, rest)
  {
    hide Valid, Run, HoldersOf;
    var p0 := Begin(-1);
    assert Valid(p0) by { BeginValid(-1); }
    var p1 := p0.(slot := Some(1));
    var p2 := p1.(connected := {7}, live := Some(7));
    assert Step(p0, Slot(Some(1))) == p1 && Step(p1, Connected(1, 7)) == p2;
    var r2, r1 := [Leased(5, 7)] + rest, [Connected(1, 7)] + ([Leased(5, 7)] + rest);
    RunStep(p0, Slot(Some(1)), r1);
    RunStep(p1, Connected(1, 7), r2);
    RunStep(p2, Leased(5, 7), rest);
    assert Step(p2, Leased(5, 7)) == LEASED_ONCE;
    assert [Slot(Some(1)), Connected(1, 7), Leased(5, 7)] + rest == [Slot(Some(1))] + r1;
  }

  lemma LeasesAgain()
    requires Valid(LEASED_ONCE)
    ensures Run(LEASED_ONCE, [Leased(5, 7), Broken(1, 7), Released(5)]) == RELEASED
    ensures Valid(RELEASED)
  {
    hide Valid, Run, HoldersOf;
    RunStep(LEASED_ONCE, Leased(5, 7), [Broken(1, 7), Released(5)]);
    assert Step(LEASED_ONCE, Leased(5, 7)) == LEASED_TWICE;
    DropsAndReleases();
    assert [Leased(5, 7)] + [Broken(1, 7), Released(5)] == [Leased(5, 7), Broken(1, 7), Released(5)];
  }

  lemma DropsAndReleases()
    requires Valid(LEASED_TWICE)
    ensures Run(LEASED_TWICE, [Broken(1, 7), Released(5)]) == RELEASED
    ensures Valid(RELEASED)
  {
    hide Valid, Run, HoldersOf;
    RunStep(LEASED_TWICE, Broken(1, 7), [Released(5)]);
    assert Step(LEASED_TWICE, Broken(1, 7)) == DROPPED;
    RunStep(DROPPED, Released(5), []);
    assert Step(DROPPED, Released(5)) == RELEASED;
    Nothing(RELEASED);
    assert [Broken(1, 7)] + [Released(5)] == [Broken(1, 7), Released(5)];
    assert [Released(5)] + [] == [Released(5)];
  }

  /** Such a run: one request leases twice, the client is dropped as broken, the
      request releases. Nobody holds the retired client and it was never ended. */
  lemma LeakedClient()
    ensures
      Valid(Begin(-1)) &&
      var events := [Slot(Some(1)), Connected(1, 7), Leased(5, 7)] + [Leased(5, 7), Broken(1, 7), Released(5)];
      var p := Run(Begin(-1), events);
      p.holders == map[] && 7 in p.retired && !IsEnded(p, 7) && Surplus(p, 7) > 0
  {
    hide Valid, Run, HoldersOf;
    LeasesClient([Leased(5, 7), Broken(1, 7), Released(5)]);
    LeasesAgain();
    assert |HoldersOf(map[], 7)| == 0 by { NobodyHolds(7); }
  }

  lemma NobodyHolds(client: Client)
    ensures HoldersOf(map[], client) == {}
  {
  }

  lemma Nothing(p: Pool)
    requires Valid(p)
    ensures Run(p, []) == p
  {
  }

  lemma RunStep(p: Pool, e: Event, rest: seq<Event>)
    requires Valid(p)
    ensures Counted(p) && Valid(Step(p, e)) && Run(p, [e] + rest) == Run(Step(p, e), rest)
  {
    StepKeeps(p, e);
    assert ([e] + rest)[1..] == rest;
  }

  // ---- The middleware's state ----

  class LeasedClients {
    const cacheExpiry: int
    var holders: map<Request, Client>
    var leases: map<Client, Held>
    var live: Option<Client>
    var slot: Option<Promise>
    var waiting: map<Promise, Waiting>
    ghost var ends: seq<EndCall>
    ghost var connected: set<Client>
    ghost var retired: set<Client>
    ghost var lost: set<Client>

    ghost function State(): Pool
      reads this
    {
      Pool(cacheExpiry, holders, leases, live, slot, waiting, ends, connected, retired, lost)
    }

    constructor (cacheExpiry: int)
      ensures State() == Begin(cacheExpiry) && Valid(State()) && Exact(State())
    {
      this.cacheExpiry := cacheExpiry;
      holders, leases, live, slot, waiting := map[], map[], None, None, map[];
      ends, connected, retired, lost := [], {}, {}, {};
      new;
      BeginValid(cacheExpiry);
    }

    /** `close`: `end()` on the client. */
    method CloseClient(client: Client)
      modifies `ends
      ensures State() == Close(old(State()), client)
    {
      ends := ends + [EndCall(client, HoldersOf(holders, client))];
    }

    method RetireClient(client: Client)
      modifies `ends, `leases, `retired
      ensures State() == Retire(old(State()), client)
    {
      retired := retired + {client};
      if client !in leases {
        CloseClient(client);
      } else {
        var held := leases[client];
        leases := leases[client := held.(retired := true)];
      }
    }

    method LeaseClient(request: Request, client: Client)
      modifies `holders, `leases
      ensures State() == Lease(old(State()), request, client)
    {
      holders := holders[request := client];
      if client !in leases {
        leases := leases[client := Held(1, false)];
      } else {
        var held := leases[client];
        leases := leases[client := held.(count := held.count + 1)];
      }
    }

    method ReleaseClient(request: Request)
      requires Counted(State())
      modifies `ends, `holders, `leases
      ensures State() == Release(old(State()), request)
    {
      if request !in holders {
        return;
      }
      var client := holders[request];
      holders := holders - {request};
      var held := leases[client];
      if held.count - 1 > 0 {
        leases := leases[client := held.(count := held.count - 1)];
        return;
      }
      leases := leases - {client};
      if held.retired {
        CloseClient(client);
      }
    }

    /** `reclaim`: releases every lease left by finished invocations, first ending
        clients that were their own. */
    method Reclaim()
      requires Valid(State())
      modifies this
      ensures Valid(State()) && holders == map[]
      ensures old(Exact(State())) ==> Exact(State()) && leases == map[]
      ensures forall client :: old(IsEnded(State(), client)) ==> IsEnded(State(), client)
      ensures forall request :: request in old(holders) && cacheExpiry == 0 ==> IsEnded(State(), old(holders)[request])
      ensures live == old(live) && slot == old(slot) && retired == old(retired) && lost == old(lost)
    {
      while holders != map[]
        invariant Valid(State())
        invariant old(Exact(State())) ==> Exact(State())
        invariant live == old(live) && slot == old(slot) && retired == old(retired) && lost == old(lost)
        invariant forall request ::
            request in holders ==> request in old(holders) && holders[request] == old(holders)[request]
        invariant forall client :: old(IsEnded(State(), client)) ==> IsEnded(State(), client)
        invariant forall request ::
            request in old(holders) && request !in holders && cacheExpiry == 0 ==>
              IsEnded(State(), old(holders)[request])
        decreases |holders|
      {
        var request :| request in holders;
        ghost var before := State();
        if cacheExpiry == 0 {
          EndOwnKeeps(State(), holders[request]);
          CloseKeeps(State(), holders[request]);
          CloseClient(holders[request]);
        }
        ReleaseKeeps(State(), request);
        EndsGrow(State(), request);
        ReleaseClient(request);
      }
      EmptyLeases(State());
    }

    method AdoptClient(client: Client)
      modifies `ends, `leases, `retired, `live
      ensures State() == Adopt(old(State()), client)
    {
      if live.Some? {
        RetireClient(live.value);
      }
      live := Some(client);
    }

    /** `fetch`, when its connect succeeds. */
    method Fetched(promise: Promise, client: Client) returns (handed: Option<Client>)
      modifies this
      ensures State() == OnConnected(old(State()), promise, client)
      ensures handed == if cacheExpiry != 0 && old(slot.Some? && slot.value != promise) then None else Some(client)
    {
      if cacheExpiry == 0 {
        return Some(client);
      }
      connected := connected + {client};
      if slot.None? || slot.value == promise {
        AdoptClient(client);
        return Some(client);
      }
      waiting := waiting[promise := Waiting(slot.value, client)];
      handed := None;
    }

    /** `fetch`, when the connect that replaced it has settled. */
    method Replaced(promise: Promise, ok: bool)
      modifies this
      ensures State() == OnAwaited(old(State()), promise, ok)
    {
      if promise !in waiting {
        return;
      }
      var client := waiting[promise].client;
      waiting := waiting - {promise};
      if ok {
        RetireClient(client);
      } else {
        AdoptClient(client);
      }
    }

    /** `fetch`, when its connect fails: only its own entry is dropped. */
    method FetchFailed(promise: Promise)
      modifies `slot
      ensures slot == if old(slot) == Some(promise) then None else old(slot)
    {
      if slot == Some(promise) {
        slot := None;
      }
    }

    /** The before hook, on a client flagged broken. */
    method DropBroken(promise: Promise, client: Client)
      modifies this
      ensures State() == OnBroken(old(State()), promise, client)
    {
      if cacheExpiry == 0 || slot == Some(promise) {
        slot := None;
        RetireClient(client);
        if live.Some? && live.value != client {
          lost := lost + {live.value};
        }
        live := None;
      }
    }

    /** The after and onError hooks: `end()` on the request's own client when
        clients are not shared, whatever comes of it, then the release. */
    method Finish(request: Request)
      requires Valid(State())
      modifies this
      ensures State() == Release(Step(old(State()), EndOwn(request)), request)
      ensures Valid(State()) && request !in holders
    {
      if cacheExpiry == 0 && request in holders {
        EndOwnKeeps(State(), holders[request]);
        CloseClient(holders[request]);
      }
      ReleaseKeeps(State(), request);
      ReleaseClient(request);
    }
  }

  lemma EndsGrow(p: Pool, request: Request)
    requires Valid(p)
    ensures forall client :: IsEnded(p, client) ==> IsEnded(Release(p, request), client)
    ensures
      var p' := Release(p, request);
      && p'.holders == p.holders - {request} && p'.live == p.live && p'.slot == p.slot
      && p'.retired == p.retired && p'.lost == p.lost
  {
    var p' := Release(p, request);
    forall client | IsEnded(p, client)
      ensures IsEnded(p', client)
    {
      var k :| 0 <= k < |p.ends| && p.ends[k].client == client;
      assert p'.ends[k].client == client;
    }
  }

  lemma EmptyLeases(p: Pool)
    requires Valid(p) && p.holders == map[]
    ensures Exact(p) ==> p.leases == map[]
  {
    if Exact(p) {
      forall client
        ensures client !in p.leases
      {
        assert HoldersOf(p.holders, client) == {};
      }
      assert p.leases.Keys == {};
    }
  }
}
