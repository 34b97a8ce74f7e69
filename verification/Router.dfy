/** The route tables and the dispatch that walks them, against choosing from the
    list of routes directly. */
module Router {
  import opened Wrappers
  import opened Text
  import opened RoutePattern

  /** `handler` names the route's handler function. */
  datatype Route = Route(method_: string, path: string, handler: nat)

  datatype Compiled = Compiled(pattern: Pattern, segmentCount: int, handler: nat)

  datatype Error = MethodNotAllowed | DuplicateRoute | BadPath(error: CompileError)

  const ANY := "ANY"
  const METHODS: set<string> := {"GET", "POST", "PUT", "PATCH", "DELETE", "OPTIONS", "HEAD", ANY}

  predicate EndsIn(s: string, c: char) { s != "" && s[|s| - 1] == c }

  /** The trailing slash is dropped, but not if it is the first character. */
  function Strip(path: string): string {
    if EndsIn(path, '/') && path != "/" then path[..|path| - 1] else path
  }

  /** Paths the option schema allows, and those with one more trailing slash,
      which the router strips. `*` is left unescaped by the router. */
  predicate ValidPath(path: string) {
    && path != "" && path[0] == '/' && '*' !in path
    && (EndsIn(Strip(path), '/') ==> Strip(path) == "/")
  }

  predicate ValidRoutes(routes: seq<Route>) {
    forall r :: r in routes ==> ValidPath(r.path)
  }

  predicate IsStatic(r: Route) { '{' !in Strip(r.path) }

  /** What a route is filed under: two routes of one method may not share it. */
  datatype Key = StaticKey(path: string) | DynamicKey(signature: Pattern)

  function KeyOf(r: Route): Option<Key>
    requires ValidPath(r.path)
  {
    if IsStatic(r) then Some(StaticKey(Strip(r.path)))
    else match Compile(Strip(r.path))
      case Success(p) => Some(DynamicKey(p.Signature()))
      case Failure(_) => None
  }

  /** The regular expression takes the request, and so does the slash-count filter. */
  predicate Admits(p: Pattern, path: string) {
    Matches(p, path) && (path != "" ==> FilterPasses(p, path))
  }

  /** One route by itself: does it serve this request path? */
  predicate Serves(r: Route, path: string)
    requires ValidPath(r.path)
  {
    if IsStatic(r) then path == Strip(r.path) || path == Strip(r.path) + "/"
    else Compile(Strip(r.path)).Success? && Admits(Compile(Strip(r.path)).value, path)
  }

  /** What happens when a route is chosen: its handler runs, unless its pattern has no
      group; then a match has no `groups` to read, and dispatch throws a TypeError. */
  datatype Choice = Run(handler: nat) | NoGroups

  function Outcome(r: Route): Choice
    requires ValidPath(r.path)
  {
    if !IsStatic(r) && Compile(Strip(r.path)).Success? then Ran(Compile(Strip(r.path)).value, r.handler)
    else Run(r.handler)
  }

  function Ran(p: Pattern, handler: nat): Choice {
    if Names(p) == [] then NoGroups else Run(handler)
  }

  /** The first route of a method, static or dynamic, that serves the path. */
  function First(routes: seq<Route>, m: string, static_: bool, path: string): Option<Choice>
    requires ValidRoutes(routes)
  {
    if routes == [] then None
    else
      var front, last := routes[..|routes| - 1], routes[|routes| - 1];
      var earlier := First(front, m, static_, path);
      if earlier.Some? then earlier
      else if last.method_ == m && IsStatic(last) == static_ && Serves(last, path) then Some(Outcome(last))
      else None
  }

  function OrElse(a: Option<Choice>, b: Option<Choice>): Option<Choice> {
    if a.Some? then a else b
  }

  /** The specification of dispatch. */
  function Choose(routes: seq<Route>, m: string, path: string): Option<Choice>
    requires ValidRoutes(routes)
  {
    OrElse(First(routes, m, true, path),
    OrElse(First(routes, ANY, true, path),
    OrElse(First(routes, m, false, path),
           First(routes, ANY, false, path))))
  }

  /** Some route of `m` is filed under `key`. */
  predicate Taken(routes: seq<Route>, m: string, key: Key)
    requires ValidRoutes(routes)
  {
    routes != [] &&
    var front, last := routes[..|routes| - 1], routes[|routes| - 1];
    Taken(front, m, key) || (last.method_ == m && KeyOf(last) == Some(key))
  }

  /** Routes that build: known methods, valid patterns, no shared key. */
  predicate Buildable(routes: seq<Route>)
    requires ValidRoutes(routes)
  {
    routes == [] ||
    var front, last := routes[..|routes| - 1], routes[|routes| - 1];
    && Buildable(front)
    && last.method_ in METHODS
    && KeyOf(last).Some?
    && !Taken(front, last.method_, KeyOf(last).value)
  }

  /** The dynamic routes of one method, compiled, in registration order. */
  function DynamicOf(routes: seq<Route>, m: string): (list: seq<Compiled>)
    requires ValidRoutes(routes)
  {
    if routes == [] then []
    else
      var front, last := routes[..|routes| - 1], routes[|routes| - 1];
      if last.method_ == m && !IsStatic(last) && Compile(Strip(last.path)).Success?
      then DynamicOf(front, m) + [CompileRoute(Compile(Strip(last.path)).value, last.handler)]
      else DynamicOf(front, m)
  }

  function CompileRoute(p: Pattern, handler: nat): Compiled {
    Compiled(p, SegmentCount(p), handler)
  }

  /** The first compiled route that takes the request. */
  function FirstMatch(list: seq<Compiled>, path: string): Option<Choice> {
    if list == [] then None
    else
      var earlier := FirstMatch(list[..|list| - 1], path);
      if earlier.Some? then earlier
      else if Admits(list[|list| - 1].pattern, path) then Some(Ran(list[|list| - 1].pattern, list[|list| - 1].handler))
      else None
  }

  /** Filed under its pattern's slash count. */
  predicate Filed(route: Compiled) {
    route.segmentCount == SegmentCount(route.pattern)
  }

  /** The table for `m`, or the shared ANY table. */
  function TableFor<T>(m: string, tables: map<string, T>, tableAny: T, none: T): T {
    if m == ANY then tableAny else if m in tables then tables[m] else none
  }

  class Router {
    ghost var routes: seq<Route>
    var routesStatic: map<string, map<string, nat>>
    var routesStaticAny: map<string, nat>
    var routesDynamic: map<string, seq<Compiled>>
    var routesDynamicAny: seq<Compiled>

    function StaticTable(m: string): map<string, nat>
      reads this
    {
      TableFor(m, routesStatic, routesStaticAny, map[])
    }

    function DynamicTable(m: string): seq<Compiled>
      reads this
    {
      TableFor(m, routesDynamic, routesDynamicAny, [])
    }

    /** The tables hold exactly the routes taken in. */
    ghost predicate Valid()
      reads this
    {
      && ValidRoutes(routes) && Buildable(routes)
      && ANY !in routesStatic && ANY !in routesDynamic
      && (forall m :: Represents(StaticTable(m), routes, m))
      && (forall m :: DynamicTable(m) == DynamicOf(routes, m))
    }

    constructor ()
      ensures Valid() && routes == []
    {
      routes := [];
      routesStatic, routesStaticAny := map[], map[];
      routesDynamic, routesDynamicAny := map[], [];
    }

    /** `attachStaticRoute` into the table of `m`: the path and the path with an
        optional slash. */
    method AttachStatic(m: string, path: string, handler: nat) returns (ok: bool)
      modifies this`routesStatic, this`routesStaticAny
      ensures ok <==> path !in old(StaticTable(m))
      ensures !ok ==> routesStatic == old(routesStatic) && routesStaticAny == old(routesStaticAny)
      ensures ok ==> StaticTable(m) == old(StaticTable(m))[path := handler][path + "/" := handler]
      ensures forall n :: n != m ==> StaticTable(n) == old(StaticTable(n))
      ensures ANY !in old(routesStatic) ==> ANY !in routesStatic
    {
      var table := StaticTable(m);
      if path in table {
        return false;
      }
      table := table[path := handler];
      table := table[path + "/" := handler];
      if m == ANY {
        routesStaticAny := table;
      } else {
        routesStatic := routesStatic[m := table];
      }
      ok := true;
    }

    /** `attachDynamicRoute`: refused when the table of `m` has the signature. */
    method AttachDynamic(m: string, route: Compiled) returns (ok: bool)
      modifies this`routesDynamic, this`routesDynamicAny
      ensures ok <==> forall c :: c in old(DynamicTable(m)) ==> c.pattern.Signature() != route.pattern.Signature()
      ensures !ok ==> routesDynamic == old(routesDynamic) && routesDynamicAny == old(routesDynamicAny)
      ensures ok ==> DynamicTable(m) == old(DynamicTable(m)) + [route]
      ensures forall n :: n != m ==> DynamicTable(n) == old(DynamicTable(n))
      ensures ANY !in old(routesDynamic) ==> ANY !in routesDynamic
    {
      var table := DynamicTable(m);
      if exists i :: 0 <= i < |table| && table[i].pattern.Signature() == route.pattern.Signature() {
        return false;
      }
      if m == ANY {
        routesDynamicAny := table + [route];
      } else {
        routesDynamic := routesDynamic[m := table + [route]];
      }
      ok := true;
    }

    /** Take in one route of a known method whose path has no parameter. */
    method AddStatic(route: Route, path: string) returns (ok: bool)
      requires Valid() && ValidPath(route.path) && IsStatic(route) && path == Strip(route.path)
      requires route.method_ in METHODS
      modifies this
      ensures ok <==> !Taken(old(routes), route.method_, StaticKey(path))
      ensures ok ==> Valid() && routes == old(routes) + [route]
    {
      hide First;
      hide Represents;
      hide DynamicOf;
      hide Taken;
      hide Strip;
      hide CompiledAlone;
      StaticKeys(routes, route);
      assert path in StaticTable(route.method_) <==> First(routes, route.method_, true, path).Some? by {
        RepresentsAt(StaticTable(route.method_), routes, route.method_, path);
      }
      ok := AttachStatic(route.method_, path, route.handler);
      if ok {
        StaticAdded(routes, route);
        OneMore(routes, route);
        StaticAlone(route);
        routes := routes + [route];
        forall m
          ensures Represents(StaticTable(m), routes, m)
        {
          RepresentsMore(old(StaticTable(m)), old(routes), route, m);
        }
        assert forall m :: DynamicTable(m) == old(DynamicTable(m));
      }
    }

    /** Take in one route of a known method whose path compiles. */
    method AddDynamic(route: Route, p: Pattern) returns (ok: bool)
      requires Valid() && ValidPath(route.path) && !IsStatic(route)
      requires Compile(Strip(route.path)) == Success(p)
      requires route.method_ in METHODS
      modifies this
      ensures ok <==> !Taken(old(routes), route.method_, DynamicKey(p.Signature()))
      ensures ok ==> Valid() && routes == old(routes) + [route]
    {
      hide First;
      hide DynamicOf;
      hide Taken;
      hide Compile;
      hide CompiledAlone;
      hide Represents;
      DynamicKeys(routes, route.method_, p.Signature());
      ok := AttachDynamic(route.method_, CompileRoute(p, route.handler));
      if ok {
        OneMore(routes, route);
        DynamicAlone(route, p);
        routes := routes + [route];
        forall m
          ensures Represents(StaticTable(m), routes, m)
        {
          RepresentsMore(old(StaticTable(m)), old(routes), route, m);
        }
        assert forall m :: DynamicTable(m) == DynamicOf(routes, m);
      }
    }

    /** Take in one route. It fails exactly when the routes so far and this one
        do not build. */
    method Add(route: Route) returns (r: Result<(), Error>)
      requires Valid() && ValidPath(route.path)
      modifies this
      ensures r.Success? <==> Buildable(old(routes) + [route])
      ensures r.Success? ==> Valid() && routes == old(routes) + [route]
      ensures r == Failure(MethodNotAllowed) <==> route.method_ !in METHODS
    {
      assert (routes + [route])[..|routes|] == routes;
      if route.method_ !in METHODS {
        return Failure(MethodNotAllowed);
      }
      var path := Strip(route.path);
      var ok;
      if '{' !in path {
        ok := AddStatic(route, path);
      } else {
        var compiled := Compile(path);
        if compiled.Failure? {
          return Failure(BadPath(compiled.error));
        }
        ok := AddDynamic(route, compiled.value);
      }
      r := if ok then Success(()) else Failure(DuplicateRoute);
    }

    /** The tables for a list of routes, refused exactly when it does not build. */
    method Build(list: seq<Route>) returns (r: Result<(), Error>)
      requires Valid() && routes == [] && ValidRoutes(list)
      modifies this
      ensures r.Success? <==> Buildable(list)
      ensures r.Success? ==> Valid() && routes == list
    {
      for i := 0 to |list|
        invariant Valid() && routes == list[..i]
      {
        assert list[i] in list;
        assert list[..i + 1] == list[..i] + [list[i]];
        var added := Add(list[i]);
        if added.Failure? {
          if Buildable(list) {
            BuildablePrefix(list, i + 1);
          }
          return added;
        }
      }
      assert list[..|list|] == list;
      r := Success(());
    }

    /** One dynamic list, with the slash-count filter in front of the match. */
    method WalkDynamic(list: seq<Compiled>, path: string, reqSegments: int) returns (choice: Option<Choice>)
      requires path != "" && reqSegments == RequestSegments(path)
      requires forall c :: c in list ==> Filed(c)
      ensures choice == FirstMatch(list, path)
    {
      hide Matches, Names;
      assert list[..|list|] == list;
      for i := 0 to |list|
        invariant FirstMatch(list[..i], path) == None
      {
        var route := list[i];
        assert route in list;
        assert list[..i + 1][..i] == list[..i];
        if route.segmentCount != -1 && route.segmentCount != reqSegments {
          continue;
        }
        if Matches(route.pattern, path) {
          FirstMatchStays(list, i + 1, path);
          return Some(if Names(route.pattern) == [] then NoGroups else Run(route.handler));
        }
      }
      choice := None;
    }

    /** Dispatch: `None` means the not-found response. The method and the path
        are those of the event, which both have to be there. */
    method Dispatch(m: string, path: string) returns (choice: Option<Choice>)
      requires Valid() && path != ""
      ensures choice == Choose(routes, m, path)
    {
      var static_ := Lookup(if m in routesStatic then routesStatic[m] else map[], path);
      if static_.None? {
        static_ := Lookup(routesStaticAny, path);
      }
      RepresentsAt(StaticTable(ANY), routes, ANY, path);
      RepresentsAt(StaticTable(m), routes, m, path);
      if static_.Some? {
        return static_;
      }
      var reqSegments: int := Occurrences(path, '/');
      if path[|path| - 1] == '/' {
        reqSegments := reqSegments - 1;
      }
      DynamicList(routes, m, path);
      DynamicList(routes, ANY, path);
      if m in routesDynamic {
        assert routesDynamic[m] == DynamicTable(m);
        choice := WalkDynamic(routesDynamic[m], path, reqSegments);
        if choice.Some? {
          return;
        }
      }
      assert DynamicTable(ANY) == routesDynamicAny;
      assert m != ANY ==> DynamicTable(m) == DynamicOf(routes, m);
      choice := WalkDynamic(routesDynamicAny, path, reqSegments);
    }
  }

  /** What one route by itself serves. */
  function Alone(route: Route, m: string, static_: bool, path: string): Option<Choice>
    requires ValidPath(route.path)
  {
    if route.method_ == m && IsStatic(route) == static_ && Serves(route, path) then Some(Outcome(route)) else None
  }

  function CompiledAlone(route: Route, m: string): seq<Compiled>
    requires ValidPath(route.path)
  {
    if route.method_ == m && !IsStatic(route) && Compile(Strip(route.path)).Success?
    then [CompileRoute(Compile(Strip(route.path)).value, route.handler)] else []
  }

  lemma OneMore(routes: seq<Route>, route: Route)
    requires ValidRoutes(routes) && ValidPath(route.path)
    ensures ValidRoutes(routes + [route])
    ensures forall m, static_, path ::
      First(routes + [route], m, static_, path)
      == OrElse(First(routes, m, static_, path), Alone(route, m, static_, path))
    ensures forall m :: DynamicOf(routes + [route], m) == DynamicOf(routes, m) + CompiledAlone(route, m)
    ensures Buildable(routes + [route])
       <==> Buildable(routes) && route.method_ in METHODS && KeyOf(route).Some?
            && !Taken(routes, route.method_, KeyOf(route).value)
  {
    hide Compile;
    hide Serves;
    hide SegmentCount;
    assert (routes + [route])[..|routes|] == routes;
  }

  /** The two keys a static route is attached under are what it serves. */
  lemma StaticAlone(route: Route)
    requires ValidPath(route.path) && IsStatic(route)
    ensures forall m, static_, path ::
      Alone(route, m, static_, path)
      == if static_ && m == route.method_ && (path == Strip(route.path) || path == Strip(route.path) + "/")
         then Some(Run(route.handler)) else None
    ensures forall m :: CompiledAlone(route, m) == []
  {
    hide Compile;
  }

  /** The table holds, for each path, the first static route of `m` serving it. */
  ghost predicate Represents(table: map<string, nat>, routes: seq<Route>, m: string)
    requires ValidRoutes(routes)
  {
    forall path :: Lookup(table, path) == First(routes, m, true, path)
  }

  lemma RepresentsAt(table: map<string, nat>, routes: seq<Route>, m: string, path: string)
    requires ValidRoutes(routes) && Represents(table, routes, m)
    ensures Lookup(table, path) == First(routes, m, true, path)
  {
  }

  /** A new route changes its own table in its two keys, and no other. */
  lemma RepresentsMore(table: map<string, nat>, routes: seq<Route>, route: Route, m: string)
    requires ValidRoutes(routes) && ValidPath(route.path) && Represents(table, routes, m)
    requires IsStatic(route) && m == route.method_ ==>
               && First(routes, m, true, Strip(route.path)).None?
               && First(routes, m, true, Strip(route.path) + "/").None?
    ensures ValidRoutes(routes + [route])
    ensures
      var p := Strip(route.path);
      Represents(if IsStatic(route) && m == route.method_
                 then table[p := route.handler][p + "/" := route.handler] else table,
                 routes + [route], m)
  {
    hide First;
    hide Strip;
    OneMore(routes, route);
    if IsStatic(route) {
      StaticAlone(route);
    }
  }

  lemma DynamicAlone(route: Route, p: Pattern)
    requires ValidPath(route.path) && !IsStatic(route) && Compile(Strip(route.path)) == Success(p)
    ensures forall m, path :: Alone(route, m, true, path) == None
    ensures forall m :: CompiledAlone(route, m) == if m == route.method_ then [CompileRoute(p, route.handler)] else []
    ensures KeyOf(route) == Some(DynamicKey(p.Signature()))
  {
    hide Compile;
  }

  /** A route compiled by itself matches what it serves, and is filed rightly. */
  lemma CompiledAloneServes(route: Route, m: string, path: string)
    requires ValidPath(route.path)
    ensures FirstMatch(CompiledAlone(route, m), path) == Alone(route, m, false, path)
    ensures forall c :: c in CompiledAlone(route, m) ==> Filed(c)
  {
    hide Compile;
    hide Matches;
    if route.method_ == m && !IsStatic(route) && Compile(Strip(route.path)).Success? {
      CompiledPath(Strip(route.path));
      assert CompiledAlone(route, m)[..0] == [];
    }
  }

  lemma {:induction false} FirstMatchAppend(a: seq<Compiled>, b: seq<Compiled>, path: string)
    ensures FirstMatch(a + b, path) == OrElse(FirstMatch(a, path), FirstMatch(b, path))
  {
    hide Matches;
    if b == [] {
      assert a + b == a;
    } else {
      FirstMatchAppend(a, b[..|b| - 1], path);
      assert (a + b)[..|a + b| - 1] == a + b[..|b| - 1];
    }
  }

  lemma {:induction false} DynamicList(routes: seq<Route>, m: string, path: string)
    requires ValidRoutes(routes)
    ensures FirstMatch(DynamicOf(routes, m), path) == First(routes, m, false, path)
    ensures forall c :: c in DynamicOf(routes, m) ==> Filed(c)
  {
    if routes != [] {
      hide DynamicOf;
      hide First;
      hide Compile;
      var front, last := routes[..|routes| - 1], routes[|routes| - 1];
      assert routes == front + [last];
      DynamicList(front, m, path);
      OneMore(front, last);
      CompiledAloneServes(last, m, path);
      FirstMatchAppend(DynamicOf(front, m), CompiledAlone(last, m), path);
    }
  }

  function Lookup(table: map<string, nat>, path: string): Option<Choice> {
    if path in table then Some(Run(table[path])) else None
  }

  lemma {:induction false} BuildablePrefix(routes: seq<Route>, n: nat)
    requires n <= |routes| && ValidRoutes(routes) && Buildable(routes)
    ensures Buildable(routes[..n])
    decreases |routes|
  {
    if n < |routes| {
      BuildablePrefix(routes[..|routes| - 1], n);
      assert routes[..|routes| - 1][..n] == routes[..n];
    } else {
      assert routes[..n] == routes;
    }
  }

  lemma {:induction false} FirstMatchStays(list: seq<Compiled>, n: nat, path: string)
    requires n <= |list| && FirstMatch(list[..n], path).Some?
    ensures FirstMatch(list, path) == FirstMatch(list[..n], path)
    decreases |list|
  {
    if n < |list| {
      assert list[..|list| - 1][..n] == list[..n];
      FirstMatchStays(list[..|list| - 1], n, path);
    } else {
      assert list[..n] == list;
    }
  }

  /** A stripped path is never another stripped path with a slash added. */
  lemma StrippedApart(p: string, q: string)
    requires ValidPath(p) && ValidPath(q)
    ensures Strip(p) != Strip(q) + "/"
    ensures Strip(p) + "/" == Strip(q) + "/" ==> Strip(p) == Strip(q)
  {
    var s, t := Strip(p), Strip(q);
    assert t != "" && EndsIn(t + "/", '/') && t + "/" != "/";
    if s + "/" == t + "/" {
      assert s == (s + "/")[..|s|] && t == (t + "/")[..|t|];
    }
  }

  lemma {:induction false} StaticKeys(routes: seq<Route>, route: Route)
    requires ValidRoutes(routes) && ValidPath(route.path) && IsStatic(route)
    ensures First(routes, route.method_, true, Strip(route.path)).Some?
       <==> Taken(routes, route.method_, StaticKey(Strip(route.path)))
  {
    hide Strip;
    hide Compile;
    if routes != [] {
      var last := routes[|routes| - 1];
      assert last in routes && ValidPath(last.path);
      StaticKeys(routes[..|routes| - 1], route);
      StrippedApart(route.path, last.path);
    }
  }

  /** No route so far serves the path, so none serves it with a slash either. */
  lemma {:induction false} StaticAdded(routes: seq<Route>, route: Route)
    requires ValidRoutes(routes) && ValidPath(route.path) && IsStatic(route)
    requires First(routes, route.method_, true, Strip(route.path)).None?
    ensures First(routes, route.method_, true, Strip(route.path) + "/").None?
  {
    hide Strip;
    hide Compile;
    if routes != [] {
      var last := routes[|routes| - 1];
      assert last in routes && ValidPath(last.path);
      StaticAdded(routes[..|routes| - 1], route);
      StrippedApart(last.path, route.path);
      StrippedApart(route.path, last.path);
    }
  }

  lemma {:induction false} DynamicKeys(routes: seq<Route>, m: string, signature: Pattern)
    requires ValidRoutes(routes)
    ensures (exists c :: c in DynamicOf(routes, m) && c.pattern.Signature() == signature)
       <==> Taken(routes, m, DynamicKey(signature))
  {
    hide Compile;
    if routes != [] {
      var front, last := routes[..|routes| - 1], routes[|routes| - 1];
      assert last in routes && ValidPath(last.path);
      DynamicKeys(front, m, signature);
      if last.method_ == m && !IsStatic(last) && Compile(Strip(last.path)).Success? {
        var added := CompileRoute(Compile(Strip(last.path)).value, last.handler);
        assert forall c :: c in DynamicOf(routes, m) <==> c in DynamicOf(front, m) || c == added;
      }
    }
  }

  /** The routes of one method, in order. */
  function OfMethod(routes: seq<Route>, m: string): seq<Route> {
    if routes == [] then []
    else
      var front, last := routes[..|routes| - 1], routes[|routes| - 1];
      OfMethod(front, m) + if last.method_ == m then [last] else []
  }

  lemma {:induction false} FirstOfMethod(routes: seq<Route>, m: string, static_: bool, path: string)
    requires ValidRoutes(routes)
    ensures ValidRoutes(OfMethod(routes, m))
    ensures First(OfMethod(routes, m), m, static_, path) == First(routes, m, static_, path)
  {
    hide Serves, ValidPath, IsStatic, Outcome;
    if routes != [] {
      var front, last := routes[..|routes| - 1], routes[|routes| - 1];
      FirstOfMethod(front, m, static_, path);
      if last.method_ == m {
        assert (OfMethod(front, m) + [last])[..|OfMethod(front, m)|] == OfMethod(front, m);
      } else {
        assert OfMethod(front, m) + [] == OfMethod(front, m);
      }
    }
  }

  /** How routes of different methods are interleaved never matters: two lists
      with the same routes for `m` and for ANY serve every request alike. */
  lemma InterleavingNeverMatters(a: seq<Route>, b: seq<Route>, m: string, path: string)
    requires ValidRoutes(a) && ValidRoutes(b)
    requires OfMethod(a, m) == OfMethod(b, m) && OfMethod(a, ANY) == OfMethod(b, ANY)
    ensures Choose(a, m, path) == Choose(b, m, path)
  {
    hide First;
    forall n, static_ | n == m || n == ANY
      ensures First(a, n, static_, path) == First(b, n, static_, path)
    {
      FirstOfMethod(a, n, static_, path);
      FirstOfMethod(b, n, static_, path);
    }
  }

  /** A route path with one more slash at its end is the same route: same kind, same key,
      and it serves the same requests. */
  lemma TrailingSlash(r: Route, path: string)
    requires ValidPath(r.path) && !EndsIn(r.path, '/')
    ensures
      var slashed := r.(path := r.path + "/");
      && ValidPath(slashed.path) && IsStatic(slashed) == IsStatic(r) && KeyOf(slashed) == KeyOf(r)
      && (Serves(slashed, path) <==> Serves(r, path))
  {
    assert (r.path + "/")[..|r.path|] == r.path;
    hide Compile, Admits;
  }

  /** A route is static if and only if its path has no brace, and then it serves its own
      path, with or without a slash at the end, and nothing else. */
  lemma StaticServes(r: Route, path: string)
    requires ValidPath(r.path) && !EndsIn(r.path, '/')
    ensures IsStatic(r) <==> '{' !in r.path
    ensures '{' !in r.path ==>
      (Serves(r, path) <==> path == r.path || path == r.path + "/")
      && KeyOf(r) == Some(StaticKey(r.path)) && Outcome(r) == Run(r.handler)
  {
    hide Compile;
  }

  /** A dynamic route runs its handler if and only if its pattern has a named group;
      otherwise dispatch throws. */
  lemma DynamicRuns(r: Route)
    requires ValidPath(r.path) && '{' in Strip(r.path) && Compile(Strip(r.path)).Success?
    ensures
      var p := Compile(Strip(r.path)).value;
      Outcome(r) == if p.proxy || exists i :: 0 <= i < |p.segments| && IsNamed(p.segments[i]) then Run(r.handler)
                    else NoGroups
  {
    hide Compile;
    NamesSome(Compile(Strip(r.path)).value);
    hide Names, IsNamed;
  }

  /** A trailing slash of the request makes a difference to the route. */
  predicate SlashMattersTo(r: Route)
    requires ValidPath(r.path)
  {
    !IsStatic(r) && Compile(Strip(r.path)).Success? && SlashMatters(Compile(Strip(r.path)).value)
  }

  /** A route serves a request without a trailing slash exactly when it serves the same one
      with it, static or dynamic, filter and all: if and only if the slash does not
      matter to it. */
  lemma OptionalSlash(r: Route)
    requires ValidPath(r.path)
    ensures (forall path :: path != "" && !EndsIn(path, '/') ==> (Serves(r, path) <==> Serves(r, path + "/")))
       <==> !SlashMattersTo(r)
  {
    hide Compile, Matches, FilterPasses, SlashMatters;
    if IsStatic(r) {
      forall path | path != "" && !EndsIn(path, '/')
        ensures Serves(r, path) <==> Serves(r, path + "/")
      {
        StaticSlash(Strip(r.path), path);
      }
    } else if Compile(Strip(r.path)).Success? {
      var p := Compile(Strip(r.path)).value;
      SlashOptionalIff(p);
      hide Strip;
      assert forall path :: path != "" && !EndsIn(path, '/') ==> path[|path| - 1] != '/';
      if SlashMatters(p) {
        var s := SlashNeeded(p);
        assert !Serves(r, s) && Serves(r, s + "/");
      }
    }
  }

  lemma StaticSlash(s: string, path: string)
    requires path != "" && !EndsIn(path, '/') && (EndsIn(s, '/') ==> s == "/")
    ensures path == s || path == s + "/" <==> path + "/" == s || path + "/" == s + "/"
  {
    assert EndsIn(path + "/", '/') && EndsIn(s + "/", '/');
    if path + "/" == s + "/" {
      assert path == (path + "/")[..|path|] && s == (s + "/")[..|s|];
    }
  }

  // ---- Which lists build ----

  lemma {:induction false} TakenIff(routes: seq<Route>, m: string, key: Key)
    requires ValidRoutes(routes)
    ensures Taken(routes, m, key) <==>
            exists k :: 0 <= k < |routes| && routes[k].method_ == m && KeyOf(routes[k]) == Some(key)
  {
    hide KeyOf, ValidPath;
    if routes != [] {
      var n := |routes| - 1;
      TakenIff(routes[..n], m, key);
      if k :| 0 <= k < |routes| && routes[k].method_ == m && KeyOf(routes[k]) == Some(key) {
        assert k < n ==> routes[..n][k] == routes[k];
      }
    }
  }

  /** A list builds if and only if every method is known, every path has a key, a plain
      path or a signature, and no two routes of one method have the same. */
  lemma {:induction false} BuildableIff(routes: seq<Route>)
    requires ValidRoutes(routes)
    ensures Buildable(routes) <==>
      && (forall k :: 0 <= k < |routes| ==> routes[k].method_ in METHODS && KeyOf(routes[k]).Some?)
      && forall i, j :: 0 <= i < j < |routes| && routes[i].method_ == routes[j].method_ ==>
           KeyOf(routes[i]) != KeyOf(routes[j])
  {
    hide KeyOf, ValidPath, Taken;
    if routes != [] {
      var n := |routes| - 1;
      var front := routes[..n];
      BuildableIff(front);
      assert forall k :: 0 <= k < n ==> front[k] == routes[k];
      if KeyOf(routes[n]).Some? {
        TakenIff(front, routes[n].method_, KeyOf(routes[n]).value);
      }
    }
  }

  // ---- Which route is chosen ----

  /** The route can be chosen: it is one of the method or of ANY, and serves the path. */
  predicate Candidate(r: Route, m: string, path: string)
    requires ValidPath(r.path)
  {
    (r.method_ == m || r.method_ == ANY) && Serves(r, path)
  }

  /** Static routes come before dynamic ones, and among either the method's own before
      those of ANY. */
  function Rank(r: Route, m: string): nat {
    match (IsStatic(r), r.method_ == m)
    case (true, true) => 0
    case (true, false) => 1
    case (false, true) => 2
    case (false, false) => 3
  }

  /** `First` finds the first of its routes in the list. */
  lemma {:induction false} FirstIs(routes: seq<Route>, m: string, static_: bool, path: string) returns (k: nat)
    requires ValidRoutes(routes)
    ensures k <= |routes|
    ensures forall j :: 0 <= j < k ==>
      !(routes[j].method_ == m && IsStatic(routes[j]) == static_ && Serves(routes[j], path))
    ensures k == |routes| ==> First(routes, m, static_, path).None?
    ensures k < |routes| ==>
      && routes[k].method_ == m && IsStatic(routes[k]) == static_ && Serves(routes[k], path)
      && First(routes, m, static_, path) == Some(Outcome(routes[k]))
  {
    hide Serves, Outcome, IsStatic, ValidPath;
    if routes == [] {
      k := 0;
    } else {
      var front, last := routes[..|routes| - 1], routes[|routes| - 1];
      k := FirstIs(front, m, static_, path);
      if k == |front| && !(last.method_ == m && IsStatic(last) == static_ && Serves(last, path)) {
        k := |routes|;
      }
    }
  }

  /** For every list and request: no route is chosen if and only if none of the method or
      of ANY serves the path; otherwise it is the first of those that rank lowest, the
      method's own static routes before those of ANY, and static before dynamic,
      wherever in the list they are. */
  lemma ChooseFirst(routes: seq<Route>, m: string, path: string) returns (k: nat)
    requires ValidRoutes(routes)
    ensures k <= |routes|
    ensures k == |routes| ==>
      Choose(routes, m, path).None? && forall j :: 0 <= j < |routes| ==> !Candidate(routes[j], m, path)
    ensures k < |routes| ==>
      && Candidate(routes[k], m, path) && Choose(routes, m, path) == Some(Outcome(routes[k]))
      && forall j :: 0 <= j < |routes| && Candidate(routes[j], m, path) ==>
           Rank(routes[k], m) < Rank(routes[j], m) || (Rank(routes[k], m) == Rank(routes[j], m) && k <= j)
  {
    hide First, Serves, Outcome, IsStatic, ValidPath;
    k := FirstIs(routes, m, true, path);
    if k == |routes| {
      k := FirstIs(routes, ANY, true, path);
      if k == |routes| {
        k := FirstIs(routes, m, false, path);
        if k == |routes| {
          k := FirstIs(routes, ANY, false, path);
        }
      }
    }
  }

  // ---- Without the filter ----

  /** What a route would serve if there were no slash-count filter. */
  predicate ServesPlain(r: Route, path: string)
    requires ValidPath(r.path)
  {
    if IsStatic(r) then Serves(r, path)
    else Compile(Strip(r.path)).Success? && Matches(Compile(Strip(r.path)).value, path)
  }

  /** That is what its regular expression accepts, and nothing if it does not compile. */
  lemma ServesIsRegex(r: Route, path: string)
    requires ValidPath(r.path) && !IsStatic(r)
    ensures ServesPlain(r, path) <==>
              Compile(Strip(r.path)).Success? &&
              RegexAccepts(Compile(Strip(r.path)).value.segments, Compile(Strip(r.path)).value.proxy, path)
  {
    hide Compile;
    if Compile(Strip(r.path)).Success? {
      var p := Compile(Strip(r.path)).value;
      if path == "" || path[0] == '/' {
        RegexIsPiecewise(p.segments, p.proxy, path);
        if path == "" {
          assert Parts("") == [];
        }
      } else if RegexAccepts(p.segments, p.proxy, path) {
        RegexStart(p.segments, p.proxy, path);
      }
    }
  }

  /** Routes the filter cannot keep a request from. */
  predicate FilterFree(r: Route)
    requires ValidPath(r.path)
  {
    IsStatic(r) || Compile(Strip(r.path)).Failure? || !EndsEmpty(Compile(Strip(r.path)).value)
  }

  /** The filter changes nothing of what a route serves, for these and no others. */
  lemma FilterFreeIff(r: Route)
    requires ValidPath(r.path)
    ensures (forall path :: Serves(r, path) <==> ServesPlain(r, path)) <==> FilterFree(r)
  {
    if !IsStatic(r) && Compile(Strip(r.path)).Success? {
      var p := Compile(Strip(r.path)).value;
      CompiledPath(Strip(r.path));
      FilterNeverMatters(p);
      hide Compile, Matches, EndsEmpty, FilterPasses;
      if !FilterFree(r) {
        var path :| path != "" && Matches(p, path) && !FilterPasses(p, path);
        assert ServesPlain(r, path) && !Serves(r, path);
      }
    }
  }

  function FirstPlain(routes: seq<Route>, m: string, static_: bool, path: string): Option<Choice>
    requires ValidRoutes(routes)
  {
    if routes == [] then None
    else
      var front, last := routes[..|routes| - 1], routes[|routes| - 1];
      var earlier := FirstPlain(front, m, static_, path);
      if earlier.Some? then earlier
      else if last.method_ == m && IsStatic(last) == static_ && ServesPlain(last, path) then Some(Outcome(last))
      else None
  }

  /** The choice there would be without the filter. */
  function ChoosePlain(routes: seq<Route>, m: string, path: string): Option<Choice>
    requires ValidRoutes(routes)
  {
    OrElse(FirstPlain(routes, m, true, path),
    OrElse(FirstPlain(routes, ANY, true, path),
    OrElse(FirstPlain(routes, m, false, path),
           FirstPlain(routes, ANY, false, path))))
  }

  lemma {:induction false} FirstIsPlain(routes: seq<Route>, m: string, static_: bool, path: string)
    requires ValidRoutes(routes) && forall r :: r in routes ==> FilterFree(r)
    ensures First(routes, m, static_, path) == FirstPlain(routes, m, static_, path)
  {
    hide Serves, ServesPlain, FilterFree, Outcome, IsStatic, ValidPath;
    if routes != [] {
      var last := routes[|routes| - 1];
      assert last in routes;
      FirstIsPlain(routes[..|routes| - 1], m, static_, path);
      FilterFreeIff(last);
    }
  }

  /** With such routes only, the filter never changes a choice. */
  lemma FilterChangesNoChoice(routes: seq<Route>, m: string, path: string)
    requires ValidRoutes(routes) && forall r :: r in routes ==> FilterFree(r)
    ensures Choose(routes, m, path) == ChoosePlain(routes, m, path)
  {
    hide First, FirstPlain;
    forall n, static_
      ensures First(routes, n, static_, path) == FirstPlain(routes, n, static_, path)
    {
      FirstIsPlain(routes, n, static_, path);
    }
  }

  lemma OneRoute(r: Route, path: string)
    requires ValidPath(r.path)
    ensures ValidRoutes([r])
    ensures Choose([r], r.method_, path) == if Serves(r, path) then Some(Outcome(r)) else None
    ensures ChoosePlain([r], r.method_, path) == if ServesPlain(r, path) then Some(Outcome(r)) else None
  {
    hide Serves, ServesPlain, Outcome, ValidPath, IsStatic;
    assert [r][..0] == [];
    assert forall m, static_ ::
        First([r], m, static_, path) ==
        if r.method_ == m && IsStatic(r) == static_ && Serves(r, path) then Some(Outcome(r)) else None;
    assert forall m, static_ ::
        FirstPlain([r], m, static_, path) ==
        if r.method_ == m && IsStatic(r) == static_ && ServesPlain(r, path) then Some(Outcome(r)) else None;
  }

  /** Any other route makes it change one, at least where it is the only route. */
  lemma FilterFreeExactly(r: Route)
    requires ValidPath(r.path)
    ensures ValidRoutes([r])
    ensures (forall path :: Choose([r], r.method_, path) == ChoosePlain([r], r.method_, path)) <==> FilterFree(r)
  {
    forall path
      ensures Choose([r], r.method_, path) == ChoosePlain([r], r.method_, path) <==>
              (Serves(r, path) <==> ServesPlain(r, path))
    {
      OneRoute(r, path);
    }
    FilterFreeIff(r);
    hide Choose, ChoosePlain, Serves, ServesPlain, FilterFree;
  }
}
