/** Contexts and their `middyContext` namespaces as objects linked by prototype,
    through nested invocations. */
module Contexts {
  import opened Wrappers

  /** A namespace object: own properties, then those of its prototype. */
  class Namespace {
    const proto: Namespace?
    ghost const chain: set<Namespace>
    ghost const depth: nat
    var own: map<string, int>

    ghost predicate Valid()
      decreases depth
    {
      if proto == null then chain == {this}
      else depth > proto.depth && this !in proto.chain && chain == {this} + proto.chain && proto.Valid()
    }

    /** `Object.create(proto)`. */
    constructor (proto: Namespace?)
      requires proto != null ==> proto.Valid()
      ensures Valid() && this.proto == proto && own == map[]
      ensures chain == {this} + if proto == null then {} else proto.chain
    {
      this.proto := proto;
      chain := {this} + if proto == null then {} else proto.chain;
      depth := if proto == null then 0 else proto.depth + 1;
      own := map[];
    }

    /** A read falls through to the prototype. */
    function Get(key: string): Option<int>
      requires Valid()
      reads this, chain
      decreases depth
    {
      if key in own then Some(own[key])
      else if proto == null then None
      else proto.Get(key)
    }

    /** A write is own: no namespace that does not inherit from this one sees it. */
    method Set(key: string, value: int)
      requires Valid()
      modifies this
      ensures own == old(own)[key := value]
      ensures Get(key) == Some(value)
      ensures forall k :: k != key ==> Get(k) == old(Get(k))
      ensures forall n: Namespace, k | old(allocated(n)) && n.Valid() && this !in n.chain :: n.Get(k) == old(n.Get(k))
    {
      own := own[key := value];
    }
  }

  /** An ancestor never inherits from its descendant. */
  lemma {:induction false} AncestorsApart(n: Namespace, ancestor: Namespace)
    requires n.Valid() && ancestor in n.chain && ancestor != n
    ensures ancestor.Valid() && n !in ancestor.chain && ancestor.chain < n.chain
    decreases n.depth
  {
    if ancestor != n.proto {
      AncestorsApart(n.proto, ancestor);
    }
  }

  /** Neither of two siblings inherits from the other. */
  lemma SiblingsApart(a: Namespace, b: Namespace)
    requires a.Valid() && b.Valid() && a != b && a.proto == b.proto
    ensures a !in b.chain && b !in a.chain
  {
    if a in b.chain {
      AncestorsApart(b, a);
    }
    if b in a.chain {
      AncestorsApart(a, b);
    }
  }

  /** The mark on a context whose stack runs. `Cleared` is an own `undefined`. */
  datatype Mark = Absent | Cleared | At(namespace: Namespace)

  /** A context object; `own` properties `ns` and `mark`, then its prototype's. */
  class Context {
    const proto: Context?
    ghost const chain: set<Context>
    ghost const depth: nat
    var ns: Option<Namespace>
    var mark: Mark

    /** The prototype links, which never change. */
    ghost predicate Linked()
      decreases depth
    {
      if proto == null then chain == {this}
      else depth > proto.depth && this !in proto.chain && chain == {this} + proto.chain && proto.Linked()
    }

    lemma InOwnChain()
      requires Linked()
      ensures this in chain
    {
    }

    ghost predicate Valid()
      reads this, chain
    {
      Linked() && forall c :: c in chain && c.ns.Some? ==> c.ns.value.Valid()
    }

    constructor ()
      ensures Valid() && ns.None? && mark.Absent? && proto == null
    {
      proto, chain, depth, ns, mark := null, {this}, 0, None, Absent;
    }

    /** `Object.create(context)` with its own namespace. */
    constructor Derive(parent: Context, namespace: Namespace)
      requires parent.Valid() && namespace.Valid()
      ensures Valid() && proto == parent && ns == Some(namespace) && mark.Absent?
      ensures chain == {this} + parent.chain
    {
      proto, ns, mark := parent, Some(namespace), Absent;
      chain, depth := {this} + parent.chain, parent.depth + 1;
    }

    /** `context.middyContext`. */
    function MiddyContext(): (namespace: Option<Namespace>)
      requires Valid()
      reads this, chain
      ensures namespace.Some? ==> namespace.value.Valid()
      decreases depth
    {
      if ns.Some? then ns else if proto == null then None else proto.MiddyContext()
    }

    /** `context[inFlight]`. */
    function InFlight(): Mark
      requires Valid()
      reads this, chain
      decreases depth
    {
      if !mark.Absent? then mark else if proto == null then Absent else proto.InFlight()
    }

    /** The stack this context was given to is running. */
    predicate Running()
      requires Valid()
      reads this, chain
    {
      MiddyContext().Some? && InFlight() == At(MiddyContext().value)
    }
  }

  /** `middyRequest`: inside a running stack the invocation gets a context derived
      from the outer one and a namespace that inherits from the outer namespace;
      anywhere else the context gets a new, empty namespace. */
  method MiddyRequest(context: Context) returns (own: Context, namespace: Namespace)
    requires context.Valid()
    modifies if context.Running() then {} else {context}
    ensures own.Valid() && own.ns == Some(namespace) && own.MiddyContext() == Some(namespace)
    ensures fresh(namespace) && namespace.Valid() && namespace.own == map[]
    ensures old(context.Running()) ==>
      && fresh(own) && own.proto == context && own.mark.Absent?
      && namespace.proto == old(context.MiddyContext().value)
    ensures old(context.Running()) ==> forall k :: namespace.Get(k) == old(context.MiddyContext().value.Get(k))
    ensures !old(context.Running()) ==> forall k :: namespace.Get(k) == None
    ensures !old(context.Running()) ==>
      own == context && namespace.proto == null && context.mark == old(context.mark)
  {
    var parent := context.MiddyContext();
    if parent.Some? && context.InFlight() == At(parent.value) {
      namespace := new Namespace(parent.value);
      forall k
        ensures namespace.Get(k) == old(parent.value.Get(k))
      {
        assert k !in namespace.own && namespace.proto == parent.value;
        assert namespace.Get(k) == parent.value.Get(k);
      }
      own := new Context.Derive(context, namespace);
    } else {
      namespace := new Namespace(null);
      context.ns := Some(namespace);
      own := context;
    }
  }

  /** `runRequest` marks the context at its start and clears the mark at its end,
      on the context it began with. */
  method Begin(context: Context)
    requires context.Valid() && context.ns.Some?
    modifies context`mark
    ensures context.Valid() && context.Running()
    ensures context.mark == At(context.ns.value)
  {
    context.mark := At(context.MiddyContext().value);
  }

  /** The two together, as an invocation comes to run; a `requestStart` hook that
      throws in between leaves the context without the mark. */
  method Enter(context: Context, runs: bool) returns (own: Context, namespace: Namespace)
    requires context.Valid()
    modifies if context.Running() then {} else {context}
    ensures fresh(namespace) && namespace.Valid() && namespace.own == map[]
    ensures own.ns == Some(namespace) && own.Linked() && (runs ==> own.mark == At(namespace))
    ensures old(context.Running()) ==>
      && fresh(own) && own.chain == {own} + context.chain
      && namespace.proto == old(context.MiddyContext().value)
      && (!runs ==> own.mark.Absent?)
    ensures !old(context.Running()) ==>
      own == context && namespace.proto == null && (!runs ==> own.mark == old(context.mark))
  {
    own, namespace := MiddyRequest(context);
    if runs {
      Begin(own);
    }
  }

  /** A write through a context, `context.middyContext[key] = value`. */
  method WriteThrough(context: Context, key: string, value: int)
    requires context.ns.Some? && context.ns.value.Valid()
    modifies context.ns.value
    ensures context.ns.value.own == old(context.ns.value.own)[key := value]
  {
    context.ns.value.Set(key, value);
  }

  method End(context: Context)
    requires context.Valid()
    modifies context`mark
    ensures context.Valid() && context.mark == Cleared && !context.Running()
  {
    context.mark := Cleared;
  }

  /** What a stack does with contexts: it writes to its own namespace and it
      invokes further middys with its own context. */
  datatype Action = Write(key: string, value: int) | Nested(actions: seq<Action>)

  /** One invocation and everything nested in it, to any depth. Every namespace
      there was before keeps its own properties, so every lookup from an ancestor
      or a sibling is unchanged; a running context is not touched at all. */
  method Invoke(context: Context, actions: seq<Action>) returns (own: Context)
    requires context.Valid()
    modifies if context.Running() then {} else {context}
    ensures context.Valid() && own.Valid()
    ensures forall n: Namespace | old(allocated(n)) :: n.own == old(n.own)
    ensures forall n: Namespace, k | old(allocated(n)) && n.Valid() :: n.Get(k) == old(n.Get(k))
    ensures old(context.Running()) ==> unchanged(context) && fresh(own) && own.proto == context
    ensures !old(context.Running()) ==> own == context
    ensures !own.Running() && own.ns.Some? && fresh(own.ns.value)
    decreases actions, 1
  {
    var namespace;
    own, namespace := MiddyRequest(context);
    Begin(own);
    Act(own, namespace, actions);
    End(own);
  }

  method Act(own: Context, namespace: Namespace, actions: seq<Action>)
    requires own.Valid() && own.Running() && own.ns == Some(namespace) && own.mark == At(namespace)
    requires namespace.Valid()
    modifies namespace
    ensures own.Valid() && unchanged(own)
    ensures forall n: Namespace | old(allocated(n)) && n != namespace :: n.own == old(n.own)
    decreases actions, 0
  {
    for i := 0 to |actions|
      invariant own.Valid() && unchanged(own)
      invariant forall n: Namespace | old(allocated(n)) && n != namespace :: n.own == old(n.own)
    {
      match actions[i]
      case Write(key, value) => namespace.Set(key, value);
      case Nested(inner) =>
        var nested := Invoke(own, inner);
    }
  }
}
