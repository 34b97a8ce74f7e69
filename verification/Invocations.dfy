/** Any number of invocations of middys, nested or side by side, whose starts,
    writes and ends come in any order. */
module Invocations {
  import opened Wrappers
  import opened Contexts

  // ---- The plain reading: who inherits from whom ----

  /** An invocation, its outer one if it was started with the context of a running
      stack, and the properties of its namespace. */
  datatype Invocation = Invocation(context: nat, parent: Option<nat>, live: bool, own: map<string, int>)

  /** `owner` tells for each context the latest invocation to have it as its own. */
  datatype World = World(invocations: seq<Invocation>, owner: seq<Option<nat>>)

  /** What can happen next, in any order: the host makes a context, a middy is
      invoked with a context and its stack runs or its `requestStart` hook throws,
      an invocation writes through its context, a stack settles. */
  datatype Event =
    | Fresh
    | Start(context: nat, runs: bool)
    | Put(invocation: nat, key: string, value: int)
    | Settle(invocation: nat)

  /** The invocation whose stack runs on the context. */
  function RunningOn(w: World, c: nat): Option<nat>
    requires WellFormed(w) && c < |w.owner|
  {
    if w.owner[c].Some? && w.invocations[w.owner[c].value].live then w.owner[c] else None
  }

  /** Where a write through the context of an invocation goes. */
  function Target(w: World, i: nat): nat
    requires WellFormed(w) && i < |w.invocations|
  {
    w.owner[w.invocations[i].context].value
  }

  function Step(w: World, e: Event): World
    requires WellFormed(w)
  {
    match e
    case Fresh => w.(owner := w.owner + [None])
    case Start(c, runs) =>
      if c >= |w.owner| then w
      else if RunningOn(w, c).Some? then
        World(w.invocations + [Invocation(|w.owner|, RunningOn(w, c), runs, map[])],
              w.owner + [Some(|w.invocations|)])
      else
        World(w.invocations + [Invocation(c, None, runs, map[])], w.owner[c := Some(|w.invocations|)])
    case Put(i, key, value) =>
      if i >= |w.invocations| then w
      else
        var t := Target(w, i);
        w.(invocations := w.invocations[t := w.invocations[t].(own := w.invocations[t].own[key := value])])
    case Settle(i) =>
      if i >= |w.invocations| then w
      else w.(invocations := w.invocations[i := w.invocations[i].(live := false)])
  }

  /** Outer invocations come first, and a running stack has its context to itself. */
  predicate WellFormed(w: World) {
    && (forall i :: 0 <= i < |w.invocations| ==> Nested(w.invocations[i], i, w.owner))
    && (forall c :: 0 <= c < |w.owner| ==> Owned(w.owner[c], c, w.invocations))
  }

  predicate Nested(inv: Invocation, i: nat, owner: seq<Option<nat>>) {
    && (inv.parent.Some? ==> inv.parent.value < i)
    && inv.context < |owner| && owner[inv.context].Some?
    && (inv.live ==> owner[inv.context] == Some(i))
  }

  predicate Owned(owner: Option<nat>, c: nat, invocations: seq<Invocation>) {
    owner.Some? ==> owner.value < |invocations| && invocations[owner.value].context == c
  }

  /** A read falls through to the outer invocations. */
  function Lookup(w: World, i: nat, key: string): Option<int>
    requires WellFormed(w) && i < |w.invocations|
    decreases i
  {
    var inv := w.invocations[i];
    if key in inv.own then Some(inv.own[key])
    else if inv.parent.None? then None
    else Lookup(w, inv.parent.value, key)
  }

  /** An invocation and everything it is nested in. */
  function Ancestors(w: World, i: nat): set<nat>
    requires WellFormed(w) && i < |w.invocations|
    decreases i
  {
    {i} + if w.invocations[i].parent.None? then {} else Ancestors(w, w.invocations[i].parent.value)
  }

  // ---- What every step keeps ----

  lemma StepKeeps(w: World, e: Event)
    requires WellFormed(w)
    ensures WellFormed(Step(w, e))
    ensures |w.invocations| <= |Step(w, e).invocations|
  {
    if e.Start? && e.context < |w.owner| {
      if RunningOn(w, e.context).Some? {
        StartInsideKeeps(w, e.context, e.runs);
      } else {
        StartAfreshKeeps(w, e.context, e.runs);
      }
    }
  }

  lemma StartInsideKeeps(w: World, c: nat, runs: bool)
    requires WellFormed(w) && c < |w.owner| && RunningOn(w, c).Some?
    ensures WellFormed(Step(w, Start(c, runs)))
  {
    var w' := Step(w, Start(c, runs));
    forall i | 0 <= i < |w.invocations|
      ensures Nested(w'.invocations[i], i, w'.owner)
    {
      assert Nested(w.invocations[i], i, w.owner);
    }
    forall d | 0 <= d < |w.owner|
      ensures Owned(w'.owner[d], d, w'.invocations)
    {
      assert Owned(w.owner[d], d, w.invocations);
    }
  }

  lemma StartAfreshKeeps(w: World, c: nat, runs: bool)
    requires WellFormed(w) && c < |w.owner| && RunningOn(w, c).None?
    ensures WellFormed(Step(w, Start(c, runs)))
  {
    var w' := Step(w, Start(c, runs));
    forall i | 0 <= i < |w.invocations|
      ensures Nested(w'.invocations[i], i, w'.owner)
    {
      assert Nested(w.invocations[i], i, w.owner);
    }
    forall d | 0 <= d < |w.owner|
      ensures Owned(w'.owner[d], d, w'.invocations)
    {
      assert Owned(w.owner[d], d, w.invocations);
    }
  }

  /** What a step leaves of an invocation: its outer one, and its properties but for
      a write to it. */
  lemma StepLeaves(w: World, e: Event, i: nat)
    requires WellFormed(w) && i < |w.invocations|
    ensures WellFormed(Step(w, e)) && i < |Step(w, e).invocations|
    ensures
      var before, after := w.invocations[i], Step(w, e).invocations[i];
      && after.parent == before.parent && (before.parent.Some? ==> before.parent.value < i)
      && (!(e.Put? && e.invocation < |w.invocations| && Target(w, e.invocation) == i) ==> after.own == before.own)
      && (e.Put? ==> forall key :: key != e.key ==>
            (key in after.own <==> key in before.own) && (key in after.own ==> after.own[key] == before.own[key]))
  {
    StepKeeps(w, e);
    assert Nested(w.invocations[i], i, w.owner);
  }

  /** The namespaces an invocation inherits from stay the same ones for good. */
  lemma {:induction false} ChainStays(w: World, e: Event, i: nat)
    requires WellFormed(w) && i < |w.invocations|
    ensures WellFormed(Step(w, e)) && i < |Step(w, e).invocations|
    ensures Ancestors(Step(w, e), i) == Ancestors(w, i)
    decreases i
  {
    StepLeaves(w, e, i);
    hide Step, WellFormed;
    if w.invocations[i].parent.Some? {
      ChainStays(w, e, w.invocations[i].parent.value);
    }
  }

  /** A write of the key to the invocation or one it is nested in. */
  predicate Affects(w: World, e: Event, i: nat, key: string)
    requires WellFormed(w) && i < |w.invocations|
  {
    e.Put? && e.invocation < |w.invocations| && e.key == key && Target(w, e.invocation) in Ancestors(w, i)
  }

  /** Any other step changes none of its lookups. */
  lemma {:induction false} LookupStays(w: World, e: Event, i: nat, key: string)
    requires WellFormed(w) && i < |w.invocations| && !Affects(w, e, i, key)
    ensures WellFormed(Step(w, e)) && i < |Step(w, e).invocations|
    ensures Lookup(Step(w, e), i, key) == Lookup(w, i, key)
    decreases i
  {
    StepLeaves(w, e, i);
    hide Step, WellFormed;
    if w.invocations[i].parent.Some? {
      assert Ancestors(w, w.invocations[i].parent.value) <= Ancestors(w, i);
      LookupStays(w, e, w.invocations[i].parent.value, key);
    }
  }

  /** What the events do to the invocations: a start adds one, on a context of its own
      inside a running stack and otherwise on the context it was given; a write changes
      one property of one; the end of a stack makes it no longer running. */
  lemma EventsDo(w: World, c: nat, runs: bool, i: nat, key: string, value: int)
    requires WellFormed(w)
    ensures Step(w, Fresh).invocations == w.invocations && Step(w, Fresh).owner == w.owner + [None]
    ensures c < |w.owner| ==>
      var w', n := Step(w, Start(c, runs)), |w.invocations|;
      && |w'.invocations| == n + 1 && w'.invocations[..n] == w.invocations
      && w'.invocations[n].own == map[] && w'.invocations[n].live == runs
      && (if Busy(w, c) then
            && w'.owner == w.owner + [Some(n)] && w'.invocations[n].context == |w.owner|
            && w'.invocations[n].parent == w.owner[c]
          else
            w'.owner == w.owner[c := Some(n)] && w'.invocations[n].context == c && w'.invocations[n].parent == None)
    ensures i < |w.invocations| ==>
      var w', t := Step(w, Put(i, key, value)), w.owner[w.invocations[i].context].value;
      && w'.owner == w.owner && |w'.invocations| == |w.invocations|
      && w'.invocations[t] == w.invocations[t].(own := w.invocations[t].own[key := value])
      && forall j :: 0 <= j < |w.invocations| && j != t ==> w'.invocations[j] == w.invocations[j]
    ensures i < |w.invocations| ==>
      var w' := Step(w, Settle(i));
      && w'.owner == w.owner && |w'.invocations| == |w.invocations|
      && !w'.invocations[i].live && w'.invocations[i].(live := true) == w.invocations[i].(live := true)
      && forall j :: 0 <= j < |w.invocations| && j != i ==> w'.invocations[j] == w.invocations[j]
  {
  }

  /** The stack of the context's latest invocation is running. */
  predicate Busy(w: World, c: nat)
    requires WellFormed(w) && c < |w.owner|
  {
    match w.owner[c]
    case None => false
    case Some(i) => w.invocations[i].live
  }

  /** A running stack's write goes to its own namespace, whatever else has been
      invoked meanwhile, and is read back. */
  lemma WriteReadBack(w: World, i: nat, key: string, value: int)
    requires WellFormed(w) && i < |w.invocations| && w.invocations[i].live
    ensures Target(w, i) == i
    ensures WellFormed(Step(w, Put(i, key, value))) && i < |Step(w, Put(i, key, value)).invocations|
    ensures Lookup(Step(w, Put(i, key, value)), i, key) == Some(value)
  {
    StepKeeps(w, Put(i, key, value));
  }

  /** A new invocation reads what the stack running on its context reads, and
      nothing at all on a context that is not in use, a settled one included. */
  lemma StartReads(w: World, c: nat, runs: bool, key: string)
    requires WellFormed(w) && c < |w.owner|
    ensures
      var w', i := Step(w, Start(c, runs)), |w.invocations|;
      && WellFormed(w') && |w'.invocations| == i + 1
      && Lookup(w', i, key) == (if RunningOn(w, c).Some? then Lookup(w, RunningOn(w, c).value, key) else None)
      && w'.invocations[i].parent == RunningOn(w, c)
  {
    StepKeeps(w, Start(c, runs));
    if RunningOn(w, c).Some? {
      LookupStays(w, Start(c, runs), RunningOn(w, c).value, key);
    }
  }

  /** Invocations of which neither is nested in the other never see each other's
      writes: concurrent siblings, in particular. */
  lemma SiblingsUnseen(w: World, a: nat, b: nat, key: string, value: int, other: string)
    requires WellFormed(w) && a < |w.invocations| && b < |w.invocations|
    requires w.invocations[a].live && a !in Ancestors(w, b)
    ensures
      var w' := Step(w, Put(a, key, value));
      WellFormed(w') && b < |w'.invocations| && Lookup(w', b, other) == Lookup(w, b, other)
  {
    LookupStays(w, Put(a, key, value), b, other);
  }

  lemma {:induction false} AncestorsBelow(w: World, i: nat)
    requires WellFormed(w) && i < |w.invocations|
    ensures i in Ancestors(w, i) && forall a :: a in Ancestors(w, i) ==> a <= i
    decreases i
  {
    if w.invocations[i].parent.Some? {
      AncestorsBelow(w, w.invocations[i].parent.value);
    }
  }

  /** Two invocations of one stack are nested in neither one. */
  lemma SiblingsApart(w: World, a: nat, b: nat)
    requires WellFormed(w) && a < |w.invocations| && b < |w.invocations| && a != b
    requires w.invocations[a].parent == w.invocations[b].parent
    ensures a !in Ancestors(w, b) && b !in Ancestors(w, a)
  {
    var parent := w.invocations[a].parent;
    if parent.Some? {
      AncestorsBelow(w, parent.value);
    }
  }

  // ---- Runs ----

  function Run(w: World, events: seq<Event>): (w': World)
    requires WellFormed(w)
    ensures WellFormed(w') && |w.invocations| <= |w'.invocations|
    decreases |events|
  {
    if events == [] then w
    else
      StepKeeps(w, events[0]);
      Run(Step(w, events[0]), events[1..])
  }

  /** Nothing in the run writes the key to the invocation or one it is nested in. */
  predicate Untouched(w: World, events: seq<Event>, i: nat, key: string)
    requires WellFormed(w) && i < |w.invocations|
    decreases |events|
  {
    events != [] ==>
      && !Affects(w, events[0], i, key)
      && (StepKeeps(w, events[0]); Untouched(Step(w, events[0]), events[1..], i, key))
  }

  /** Over every interleaving of any number of invocations, nested to any depth: an
      invocation inherits from the same ones for good, its lookups change only by
      writes to itself or to one of those, and while its stack runs its writes go
      to its own namespace. */
  lemma {:induction false} EveryRun(w: World, events: seq<Event>, i: nat, key: string)
    requires WellFormed(w) && i < |w.invocations|
    ensures
      var w' := Run(w, events);
      && Ancestors(w', i) == Ancestors(w, i)
      && (Untouched(w, events, i, key) ==> Lookup(w', i, key) == Lookup(w, i, key))
      && (w'.invocations[i].live ==> Target(w', i) == i)
    decreases |events|
  {
    if events != [] {
      StepKeeps(w, events[0]);
      ChainStays(w, events[0], i);
      if !Affects(w, events[0], i, key) {
        LookupStays(w, events[0], i, key);
      }
      hide Step, Lookup, Ancestors, Affects, WellFormed;
      EveryRun(Step(w, events[0]), events[1..], i, key);
    }
  }

  /** A step leaves the owner and the stack of every other context alone. */
  lemma OthersStay(w: World, e: Event, d: nat)
    requires WellFormed(w) && d < |w.owner|
    requires e.Start? && e.context < |w.owner| && RunningOn(w, e.context).None? ==> e.context != d
    requires e.Settle? && e.invocation < |w.invocations| && w.owner[d] == Some(e.invocation) ==> RunningOn(w, d).None?
    ensures WellFormed(Step(w, e)) && d < |Step(w, e).owner|
    ensures Step(w, e).owner[d] == w.owner[d] && RunningOn(Step(w, e), d) == RunningOn(w, d)
  {
    StepKeeps(w, e);
  }

  // ---- The objects ----

  function AsSet<T>(s: seq<T>): set<T> {
    set x | x in s
  }

  /** Contexts apart from each other, with all their prototypes among them. */
  ghost predicate Placed(contexts: seq<Context>)
  {
    && (forall c, d :: 0 <= c < d < |contexts| ==> contexts[c] != contexts[d])
    && forall c :: 0 <= c < |contexts| ==> contexts[c].Linked() && contexts[c].chain <= AsSet(contexts)
  }

  /** The context carries the namespace of its owner, and the mark exactly while the
      owner's stack runs. */
  ghost predicate Matches(context: Context, c: nat, namespaces: seq<Namespace>, w: World)
    requires WellFormed(w) && c < |w.owner| && |namespaces| == |w.invocations|
    reads context
  {
    && context.ns == (if w.owner[c].None? then None else Some(namespaces[w.owner[c].value]))
    && if RunningOn(w, c).Some? then context.mark == At(namespaces[w.owner[c].value])
       else !context.mark.At? && (context.ns.None? ==> context.proto == null)
  }

  /** Each namespace has its invocation's properties and inherits from the outer
      invocation's namespace. */
  ghost predicate Inherit(namespaces: seq<Namespace>, w: World)
    requires WellFormed(w)
    reads namespaces
  {
    && |namespaces| == |w.invocations|
    && (forall i, j :: 0 <= i < j < |namespaces| ==> namespaces[i] != namespaces[j])
    && (forall i :: 0 <= i < |namespaces| ==>
          && namespaces[i].Valid() && namespaces[i].own == w.invocations[i].own
          && namespaces[i].proto == (if w.invocations[i].parent.None? then null
                                     else namespaces[w.invocations[i].parent.value]))
  }

  lemma MatchStays(context: Context, c: nat, namespaces: seq<Namespace>, w: World,
                   namespaces': seq<Namespace>, w': World)
    requires WellFormed(w) && c < |w.owner| && |namespaces| == |w.invocations| && Matches(context, c, namespaces, w)
    requires WellFormed(w') && c < |w'.owner| && |namespaces'| == |w'.invocations| && namespaces <= namespaces'
    requires w'.owner[c] == w.owner[c] && RunningOn(w', c) == RunningOn(w, c)
    ensures Matches(context, c, namespaces', w')
  {
  }

  lemma InheritMore(namespaces: seq<Namespace>, w: World, namespace: Namespace, w': World)
    requires WellFormed(w) && WellFormed(w') && Inherit(namespaces, w) && namespace !in namespaces
    requires |w'.invocations| == |w.invocations| + 1 && w.invocations <= w'.invocations
    requires namespace.Valid() && namespace.own == map[] == w'.invocations[|w.invocations|].own
    requires namespace.proto == (if w'.invocations[|w.invocations|].parent.None? then null
                                 else namespaces[w'.invocations[|w.invocations|].parent.value])
    ensures Inherit(namespaces + [namespace], w')
  {
    var more, n := namespaces + [namespace], |namespaces|;
    assert more[n] == namespace && forall i :: 0 <= i < n ==> more[i] == namespaces[i];
    forall i | 0 <= i <= n
      ensures more[i].Valid() && more[i].own == w'.invocations[i].own
      ensures more[i].proto == (if w'.invocations[i].parent.None? then null else more[w'.invocations[i].parent.value])
    {
      if i < n {
        assert w'.invocations[i] == w.invocations[i];
      }
    }
  }

  lemma PlacedMore(contexts: seq<Context>, context: Context)
    requires Placed(contexts) && context !in contexts && context.Linked()
    requires context.chain <= AsSet(contexts) + {context}
    ensures Placed(contexts + [context])
  {
    var more := contexts + [context];
    assert more[|contexts|] == context;
    forall x | x in contexts
      ensures x in more
    {
      var k :| 0 <= k < |contexts| && contexts[k] == x;
      assert more[k] == x;
    }
  }

  /** Contexts and namespaces linked by prototype refine the plain reading; `running`
      lists each invocation's own context. */
  ghost predicate Refines(contexts: seq<Context>, running: seq<Context>, namespaces: seq<Namespace>, w: World)
    reads contexts, namespaces
  {
    && WellFormed(w) && Placed(contexts) && Inherit(namespaces, w)
    && |contexts| == |w.owner| && |running| == |w.invocations|
    && (forall c :: 0 <= c < |contexts| ==> Matches(contexts[c], c, namespaces, w))
    && (forall i :: 0 <= i < |running| ==> running[i] == contexts[w.invocations[i].context])
  }

  /** A new context, and the namespace of the invocation that derived it. */
  lemma RefinesInside(contexts: seq<Context>, running: seq<Context>, namespaces: seq<Namespace>, w: World,
                      c: nat, runs: bool, own: Context, namespace: Namespace)
    requires Refines(contexts, running, namespaces, w) && c < |contexts| && RunningOn(w, c).Some?
    requires own !in contexts && own.Linked() && own.chain <= AsSet(contexts) + {own}
    requires own.ns == Some(namespace) && own.mark == (if runs then At(namespace) else Absent)
    requires namespace !in namespaces && namespace.Valid() && namespace.own == map[]
    requires namespace.proto == namespaces[RunningOn(w, c).value]
    ensures Refines(contexts + [own], running + [own], namespaces + [namespace], Step(w, Start(c, runs)))
  {
    StepKeeps(w, Start(c, runs));
    PlacedMore(contexts, own);
    InheritMore(namespaces, w, namespace, Step(w, Start(c, runs)));
    forall d | 0 <= d < |contexts|
      ensures Matches((contexts + [own])[d], d, namespaces + [namespace], Step(w, Start(c, runs)))
    {
      OthersStay(w, Start(c, runs), d);
      MatchStays(contexts[d], d, namespaces, w, namespaces + [namespace], Step(w, Start(c, runs)));
    }
    hide Placed, Inherit;
  }

  /** A context not in use, with its new namespace. */
  lemma RefinesAfresh(contexts: seq<Context>, running: seq<Context>, namespaces: seq<Namespace>, w: World,
                      c: nat, runs: bool, namespace: Namespace)
    requires WellFormed(w) && Placed(contexts) && Inherit(namespaces, w)
    requires c < |contexts| == |w.owner| && |running| == |w.invocations| && RunningOn(w, c).None?
    requires forall d :: 0 <= d < |contexts| && d != c ==> Matches(contexts[d], d, namespaces, w)
    requires forall i :: 0 <= i < |running| ==> running[i] == contexts[w.invocations[i].context]
    requires contexts[c].ns == Some(namespace)
    requires if runs then contexts[c].mark == At(namespace) else !contexts[c].mark.At?
    requires namespace !in namespaces && namespace.Valid() && namespace.own == map[] && namespace.proto == null
    ensures Refines(contexts, running + [contexts[c]], namespaces + [namespace], Step(w, Start(c, runs)))
  {
    StepKeeps(w, Start(c, runs));
    InheritMore(namespaces, w, namespace, Step(w, Start(c, runs)));
    forall d | 0 <= d < |contexts| && d != c
      ensures Matches(contexts[d], d, namespaces + [namespace], Step(w, Start(c, runs)))
    {
      OthersStay(w, Start(c, runs), d);
      MatchStays(contexts[d], d, namespaces, w, namespaces + [namespace], Step(w, Start(c, runs)));
    }
    hide Placed, Inherit;
  }

  /** A step that starts nothing, with the contexts it does not touch. */
  lemma RefinesElse(contexts: seq<Context>, running: seq<Context>, namespaces: seq<Namespace>, w: World,
                    e: Event, c: nat)
    requires WellFormed(w) && Placed(contexts) && |contexts| == |w.owner|
    requires |running| == |namespaces| == |w.invocations|
    requires e.Put? || (e.Settle? && e.invocation < |w.invocations| && w.invocations[e.invocation].context == c)
    requires forall d :: 0 <= d < |contexts| && d != c ==> Matches(contexts[d], d, namespaces, w)
    requires forall i :: 0 <= i < |running| ==> running[i] == contexts[w.invocations[i].context]
    requires WellFormed(Step(w, e)) && Inherit(namespaces, Step(w, e))
    requires c < |contexts| ==> Matches(contexts[c], c, namespaces, Step(w, e))
    ensures Refines(contexts, running, namespaces, Step(w, e))
  {
    forall d | 0 <= d < |contexts| && d != c
      ensures Matches(contexts[d], d, namespaces, Step(w, e))
    {
      OthersStay(w, e, d);
      MatchStays(contexts[d], d, namespaces, w, namespaces, Step(w, e));
    }
    hide Placed, Inherit;
  }

  /** A new context, not in use. */
  lemma RefinesFresh(contexts: seq<Context>, running: seq<Context>, namespaces: seq<Namespace>, w: World, own: Context)
    requires Refines(contexts, running, namespaces, w)
    requires own !in contexts && own.Linked() && own.chain <= AsSet(contexts) + {own}
    requires own.ns.None? && own.mark.Absent? && own.proto == null
    ensures Refines(contexts + [own], running, namespaces, Step(w, Fresh))
  {
    StepKeeps(w, Fresh);
    PlacedMore(contexts, own);
    forall d | 0 <= d < |contexts|
      ensures Matches((contexts + [own])[d], d, namespaces, Step(w, Fresh))
    {
      OthersStay(w, Fresh, d);
      MatchStays(contexts[d], d, namespaces, w, namespaces, Step(w, Fresh));
    }
    hide Placed;
  }

  /** What a write leaves to do: the target's namespace has the new property. */
  lemma RefinesPut(contexts: seq<Context>, running: seq<Context>, namespaces: seq<Namespace>, w: World,
                   i: nat, key: string, value: int)
    requires WellFormed(w) && Placed(contexts) && |contexts| == |w.owner|
    requires |running| == |namespaces| == |w.invocations| && i < |running|
    requires forall d :: 0 <= d < |contexts| ==> Matches(contexts[d], d, namespaces, w)
    requires forall j :: 0 <= j < |running| ==> running[j] == contexts[w.invocations[j].context]
    requires WellFormed(Step(w, Put(i, key, value))) && Inherit(namespaces, Step(w, Put(i, key, value)))
    ensures Refines(contexts, running, namespaces, Step(w, Put(i, key, value)))
  {
    hide Placed, Inherit, Matches;
    RefinesElse(contexts, running, namespaces, w, Put(i, key, value), |contexts|);
  }

  lemma PutOwn(w: World, i: nat, key: string, value: int)
    requires WellFormed(w) && i < |w.invocations|
    ensures
      var w' := Step(w, Put(i, key, value));
      && WellFormed(w') && |w'.invocations| == |w.invocations| && Target(w, i) < |w.invocations|
      && forall j :: 0 <= j < |w.invocations| ==>
           && w'.invocations[j].parent == w.invocations[j].parent
           && (w.invocations[j].parent.Some? ==> w.invocations[j].parent.value < j)
           && w'.invocations[j].own ==
              if j == Target(w, i) then w.invocations[j].own[key := value] else w.invocations[j].own
  {
    StepKeeps(w, Put(i, key, value));
  }

  lemma WriterIs(contexts: seq<Context>, running: seq<Context>, namespaces: seq<Namespace>, w: World, i: nat)
    requires Refines(contexts, running, namespaces, w) && i < |running|
    ensures running[i].ns == Some(namespaces[Target(w, i)]) && namespaces[Target(w, i)].Valid()
  {
    assert Matches(running[i], w.invocations[i].context, namespaces, w);
  }

  /** What the end of a stack leaves to do: its context's mark is cleared. */
  lemma RefinesSettle(contexts: seq<Context>, running: seq<Context>, namespaces: seq<Namespace>, w: World, i: nat)
    requires WellFormed(w) && Placed(contexts) && Inherit(namespaces, w) && |contexts| == |w.owner|
    requires |running| == |w.invocations| && i < |running| && w.invocations[i].live
    requires forall d :: 0 <= d < |contexts| && d != w.invocations[i].context ==> Matches(contexts[d], d, namespaces, w)
    requires forall j :: 0 <= j < |running| ==> running[j] == contexts[w.invocations[j].context]
    requires running[i].mark.Cleared? && running[i].ns == Some(namespaces[i])
    ensures Refines(contexts, running, namespaces, Step(w, Settle(i)))
  {
    StepKeeps(w, Settle(i));
    assert Inherit(namespaces, Step(w, Settle(i)));
    hide Placed, Inherit;
    RefinesElse(contexts, running, namespaces, w, Settle(i), w.invocations[i].context);
  }

  /** A host and the middys it invokes. */
  class Host {
    var contexts: seq<Context>
    var running: seq<Context>
    var namespaces: seq<Namespace>
    ghost var world: World

    ghost predicate Valid()
      reads this, contexts, namespaces
    {
      Refines(contexts, running, namespaces, world)
    }

    constructor ()
      ensures Valid() && world == World([], []) && contexts == []
    {
      contexts, running, namespaces, world := [], [], [], World([], []);
    }

    /** A mark seen through the prototypes is of the stack of the context it is on. */
    lemma {:induction false} MarkOf(c: nat)
      requires Valid() && c < |contexts| && contexts[c].Valid()
      ensures contexts[c].InFlight().At? ==>
        exists d :: 0 <= d < |contexts| && contexts[d] in contexts[c].chain && RunningOn(world, d).Some?
                    && contexts[c].InFlight() == At(namespaces[world.owner[d].value])
      decreases contexts[c].depth
    {
      assert Matches(contexts[c], c, namespaces, world);
      if contexts[c].mark.Absent? && contexts[c].proto != null {
        contexts[c].proto.InOwnChain();
        var p :| 0 <= p < |contexts| && contexts[p] == contexts[c].proto;
        MarkOf(p);
      }
    }

    lemma ContextValid(c: nat)
      requires Valid() && c < |contexts|
      ensures contexts[c].Valid() && contexts[c].chain <= AsSet(contexts)
      ensures contexts[c].Running() <==> RunningOn(world, c).Some?
      ensures RunningOn(world, c).Some? ==>
        contexts[c].MiddyContext() == Some(namespaces[RunningOn(world, c).value])
    {
      forall d | d in contexts[c].chain && d.ns.Some?
        ensures d.ns.value.Valid()
      {
        var k :| 0 <= k < |contexts| && contexts[k] == d;
        assert contexts[k].ns.value == namespaces[world.owner[k].value];
      }
      MarkOf(c);
    }

    /** A prototype lookup is the lookup of the plain reading. */
    lemma {:induction false} GetIsLookup(i: nat, key: string)
      requires Valid() && i < |namespaces|
      ensures namespaces[i].Valid() && namespaces[i].Get(key) == Lookup(world, i, key)
      decreases i
    {
      if world.invocations[i].parent.Some? {
        GetIsLookup(world.invocations[i].parent.value, key);
      }
    }

    method NewContext()
      requires Valid()
      modifies this
      ensures Valid() && world == Step(old(world), Fresh)
    {
      hide Matches, Inherit, Placed, Step;
      var context := new Context();
      RefinesFresh(contexts, running, namespaces, world, context);
      contexts := contexts + [context];
      world := Step(world, Fresh);
      hide Refines;
    }

    method StartInside(c: nat, runs: bool)
      requires Valid() && c < |contexts| && RunningOn(world, c).Some?
      modifies this
      ensures Valid() && world == Step(old(world), Start(c, runs))
    {
      ContextValid(c);
      hide Refines, WellFormed, Step;
      var own, namespace := Enter(contexts[c], runs);
      RefinesInside(contexts, running, namespaces, world, c, runs, own, namespace);
      contexts, running, namespaces := contexts + [own], running + [own], namespaces + [namespace];
      world := Step(world, Start(c, runs));
      hide Refines;
    }

    method StartAfresh(c: nat, runs: bool)
      requires Valid() && c < |contexts| && RunningOn(world, c).None?
      modifies this, contexts[c]
      ensures Valid() && world == Step(old(world), Start(c, runs))
    {
      ContextValid(c);
      hide WellFormed, Matches, Inherit, Step;
      var own, namespace := Enter(contexts[c], runs);
      RefinesAfresh(contexts, running, namespaces, world, c, runs, namespace);
      running, namespaces := running + [own], namespaces + [namespace];
      world := Step(world, Start(c, runs));
      hide Refines;
    }

    /** `middyRequest` and, unless the `requestStart` hook throws, the start of the
        stack. Inside a running one the context and the namespace derive from the
        outer ones; on a context not in use the namespace is new. */
    method StartOn(c: nat, runs: bool)
      requires Valid() && c < |contexts|
      modifies this, contexts[c]
      ensures Valid() && world == Step(old(world), Start(c, runs))
    {
      ContextValid(c);
      if contexts[c].Running() {
        StartInside(c, runs);
      } else {
        StartAfresh(c, runs);
      }
    }

    /** A write through the context of an invocation. */
    method WriteTo(i: nat, key: string, value: int)
      requires Valid() && i < |running|
      modifies namespaces[Target(world, i)], this`world
      ensures Valid() && world == Step(old(world), Put(i, key, value))
    {
      WriterIs(contexts, running, namespaces, world, i);
      PutOwn(world, i, key, value);
      hide Matches, Placed, WellFormed, Step;
      WriteThrough(running[i], key, value);
      assert Inherit(namespaces, Step(world, Put(i, key, value)));
      hide Inherit;
      RefinesPut(contexts, running, namespaces, world, i, key, value);
      world := Step(world, Put(i, key, value));
      hide Refines;
    }

    /** The mark cleared as the stack settles. */
    method SettleOf(i: nat)
      requires Valid() && i < |running| && world.invocations[i].live
      modifies this`world, running[i]
      ensures Valid() && world == Step(old(world), Settle(i))
    {
      ghost var c := world.invocations[i].context;
      ContextValid(c);
      hide Placed, Inherit, Step;
      assert Matches(running[i], c, namespaces, world);
      End(running[i]);
      RefinesSettle(contexts, running, namespaces, world, i);
      world := Step(world, Settle(i));
      hide Refines;
    }
  }
}
