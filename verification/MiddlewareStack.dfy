/** Building a stack: `use`, `before`, `after`, `onError`. */
module MiddlewareStack {
  import opened Sequences
  import opened Wrappers

  /** A middleware's hooks; each hook function is named by a number. */
  datatype Layer = Layer(before: Option<nat>, after: Option<nat>, onError: Option<nat>) {
    predicate HasHook() { before.Some? || after.Some? || onError.Some? }
  }

  function Hook(o: Option<nat>): seq<nat> {
    if o.Some? then [o.value] else []
  }

  datatype Kind = Before | After | OnError

  function HookOf(l: Layer, kind: Kind): Option<nat> {
    match kind
    case Before => l.before
    case After => l.after
    case OnError => l.onError
  }

  /** The hooks of one kind, layer by layer. */
  function Collect(layers: seq<Layer>, kind: Kind): seq<nat> {
    if layers == [] then []
    else Collect(layers[..|layers| - 1], kind) + Hook(HookOf(layers[|layers| - 1], kind))
  }

  function Reverse(s: seq<nat>): (r: seq<nat>)
    ensures |r| == |s| && forall i :: 0 <= i < |s| ==> r[i] == s[|s| - 1 - i]
  {
    if s == [] then [] else [s[|s| - 1]] + Reverse(s[..|s| - 1])
  }

  lemma ReverseConcat(a: seq<nat>, b: seq<nat>)
    ensures Reverse(a + b) == Reverse(b) + Reverse(a)
  {
    var r, t := Reverse(a + b), Reverse(b) + Reverse(a);
    forall i | 0 <= i < |a| + |b|
      ensures r[i] == t[i]
    {
      assert r[i] == (a + b)[|a| + |b| - 1 - i];
    }
  }

  lemma {:induction false} CollectConcat(a: seq<Layer>, b: seq<Layer>, kind: Kind)
    ensures Collect(a + b, kind) == Collect(a, kind) + Collect(b, kind)
  {
    hide Collect;
    if b == [] {
      NothingCollected();
      assert a + b == a;
    } else {
      var front, last := b[..|b| - 1], b[|b| - 1];
      CollectConcat(a, front, kind);
      CollectLast(a + front, last, kind);
      CollectLast(front, last, kind);
      assert a + b == a + front + [last] && b == front + [last];
    }
  }

  lemma CollectLast(layers: seq<Layer>, l: Layer, kind: Kind)
    ensures Collect(layers + [l], kind) == Collect(layers, kind) + Hook(HookOf(l, kind))
  {
    assert (layers + [l])[..|layers|] == layers;
  }

  /** What is collected, by place: the hook of exactly the layers that have one of the
      kind, each once, in the order of the layers. */
  lemma {:induction false} CollectAt(layers: seq<Layer>, kind: Kind) returns (places: seq<nat>)
    ensures Places(places, |layers|) && |Collect(layers, kind)| == |places|
    ensures forall i :: 0 <= i < |places| ==> Some(Collect(layers, kind)[i]) == HookOf(layers[places[i]], kind)
    ensures forall k :: 0 <= k < |layers| ==> (k in places <==> HookOf(layers[k], kind).Some?)
  {
    if layers == [] {
      places := [];
    } else {
      var n := |layers| - 1;
      places := CollectAt(layers[..n], kind);
      if HookOf(layers[n], kind).Some? {
        places := places + [n];
      }
    }
  }

  lemma NothingCollected()
    ensures forall kind :: Collect([], kind) == []
  {
  }

  lemma CollectOne(l: Layer, kind: Kind)
    ensures Collect([l], kind) == Hook(HookOf(l, kind))
  {
    assert [l][..0] == [];
  }

  /** The order of one kind around a layer: before hooks run from the outermost
      layer in, after and onError hooks from the innermost out. */
  lemma Onion(outer: seq<Layer>, layer: Layer, inner: seq<Layer>, kind: Kind)
    ensures
      var all := Collect(outer + [layer] + inner, kind);
      var hook := Hook(HookOf(layer, kind));
      && all == Collect(outer, kind) + hook + Collect(inner, kind)
      && Reverse(all) == Reverse(Collect(inner, kind)) + hook + Reverse(Collect(outer, kind))
  {
    hide Collect;
    CollectConcat(outer + [layer], inner, kind);
    CollectConcat(outer, [layer], kind);
    CollectOne(layer, kind);
    var hook := Hook(HookOf(layer, kind));
    ReverseConcat(Collect(outer, kind) + hook, Collect(inner, kind));
    ReverseConcat(Collect(outer, kind), hook);
    assert Reverse(hook) == hook;
  }

  class Middy {
    ghost var layers: seq<Layer>
    var beforeMiddlewares: seq<nat>
    var afterMiddlewares: seq<nat>
    var onErrorMiddlewares: seq<nat>

    ghost predicate Valid()
      reads this
    {
      && beforeMiddlewares == Collect(layers, Kind.Before)
      && afterMiddlewares == Reverse(Collect(layers, Kind.After))
      && onErrorMiddlewares == Reverse(Collect(layers, Kind.OnError))
    }

    constructor ()
      ensures Valid() && layers == []
    {
      layers, beforeMiddlewares, afterMiddlewares, onErrorMiddlewares := [], [], [], [];
    }

    /** `use`, refused with nothing attached when a middleware has no hook. */
    method Use(middlewares: seq<Layer>) returns (ok: bool)
      requires Valid()
      modifies this
      ensures Valid()
      ensures ok <==> forall l :: l in middlewares ==> l.before.Some? || l.after.Some? || l.onError.Some?
      ensures layers == if ok then old(layers) + middlewares else old(layers)
    {
      hide Collect;
      hide Reverse;
      var befores: seq<nat>, afters: seq<nat>, onErrors: seq<nat> := [], [], [];
      NothingCollected();
      for i := 0 to |middlewares|
        invariant unchanged(this)
        invariant forall j :: 0 <= j < i ==> middlewares[j].HasHook()
        invariant befores == Collect(middlewares[..i], Kind.Before)
        invariant afters == Collect(middlewares[..i], Kind.After)
        invariant onErrors == Collect(middlewares[..i], Kind.OnError)
      {
        var l := middlewares[i];
        if !l.HasHook() {
          return false;
        }
        assert middlewares[..i] + [l] == middlewares[..i + 1];
        Single(middlewares[..i], l);
        befores := befores + Hook(l.before);
        afters := afters + Hook(l.after);
        onErrors := onErrors + Hook(l.onError);
      }
      assert middlewares[..|middlewares|] == middlewares;
      Attach(middlewares, befores, afters, onErrors);
      ok := true;
    }

    /** The collected hooks join the lists: befores at the end, the others
        reversed at the front. */
    method Attach(ghost more: seq<Layer>, befores: seq<nat>, afters: seq<nat>, onErrors: seq<nat>)
      requires Valid()
      requires befores == Collect(more, Kind.Before)
      requires afters == Collect(more, Kind.After) && onErrors == Collect(more, Kind.OnError)
      modifies this
      ensures Valid() && layers == old(layers) + more
    {
      hide Collect;
      hide Reverse;
      CollectConcat(layers, more, Kind.Before);
      CollectConcat(layers, more, Kind.After);
      CollectConcat(layers, more, Kind.OnError);
      ReverseConcat(Collect(layers, Kind.After), afters);
      ReverseConcat(Collect(layers, Kind.OnError), onErrors);
      layers := layers + more;
      beforeMiddlewares := beforeMiddlewares + befores;
      afterMiddlewares := Reverse(afters) + afterMiddlewares;
      onErrorMiddlewares := Reverse(onErrors) + onErrorMiddlewares;
    }

    /** The three inline forms attach a layer with one hook. */
    method Before(hook: nat)
      requires Valid()
      modifies this
      ensures Valid() && layers == old(layers) + [Layer(Some(hook), None, None)]
    {
      Single(layers, Layer(Some(hook), None, None));
      layers := layers + [Layer(Some(hook), None, None)];
      beforeMiddlewares := beforeMiddlewares + [hook];
    }

    method After(hook: nat)
      requires Valid()
      modifies this
      ensures Valid() && layers == old(layers) + [Layer(None, Some(hook), None)]
    {
      Single(layers, Layer(None, Some(hook), None));
      hide Collect, Reverse;
      layers := layers + [Layer(None, Some(hook), None)];
      afterMiddlewares := [hook] + afterMiddlewares;
    }

    method OnError(hook: nat)
      requires Valid()
      modifies this
      ensures Valid() && layers == old(layers) + [Layer(None, None, Some(hook))]
    {
      Single(layers, Layer(None, None, Some(hook)));
      hide Collect, Reverse;
      layers := layers + [Layer(None, None, Some(hook))];
      onErrorMiddlewares := [hook] + onErrorMiddlewares;
    }
  }

  /** What one more layer adds, kind by kind. */
  lemma Single(layers: seq<Layer>, l: Layer)
    ensures forall kind: Kind ::
      && Collect(layers + [l], kind) == Collect(layers, kind) + Hook(HookOf(l, kind))
      && Reverse(Collect(layers + [l], kind)) == Hook(HookOf(l, kind)) + Reverse(Collect(layers, kind))
  {
    hide Collect;
    forall kind: Kind
      ensures Collect(layers + [l], kind) == Collect(layers, kind) + Hook(HookOf(l, kind))
      ensures Reverse(Collect(layers + [l], kind)) == Hook(HookOf(l, kind)) + Reverse(Collect(layers, kind))
    {
      CollectLast(layers, l, kind);
      ReverseConcat(Collect(layers, kind), Hook(HookOf(l, kind)));
      assert Reverse(Hook(HookOf(l, kind))) == Hook(HookOf(l, kind));
    }
  }
}
