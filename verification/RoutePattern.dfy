/** Dynamic route paths: the patterns they compile to, what a pattern's regular
    expression accepts, and the slash-count filter in front of it. */
module RoutePattern {
  import opened Wrappers
  import opened Text

  /** Between two slashes: plain text, or a parameter in braces with plain text after
      it. The text in the braces goes into the regular expression as it stands. */
  datatype Segment = Literal(text: string) | Param(inner: string, suffix: string) {
    predicate Valid() {
      if Literal? then '/' !in text else '/' !in inner && '/' !in suffix
    }
  }

  /** What `(?<inner>[^/]+)` is: a group with a name, or, when the inner text starts
      with `=` or `!`, a look at what comes before. */
  datatype Kind = Named | Behind | NotBehind

  function KindOf(inner: string): Kind {
    if inner != "" && inner[0] == '=' then Behind
    else if inner != "" && inner[0] == '!' then NotBehind
    else Named
  }

  /** A `>` in the inner text ends the name early. */
  function Name(inner: string): (name: string)
    ensures '>' !in inner ==> name == inner
  {
    var end := IndexOf(inner, '>');
    if end == -1 then inner else inner[..end]
  }

  /** The rest, up to the `>` meant to end the name, is text to match. */
  function Prefix(inner: string): (prefix: string)
    ensures '/' !in inner ==> '/' !in prefix
  {
    var end := IndexOf(inner, '>');
    if end == -1 then "" else inner[end + 1..] + ">"
  }

  /** What is written between `(?<` and `[^/]+`: the name, which has no `>`, the `>` that
      ends it and the text before the one meant to. */
  lemma GroupText(inner: string)
    ensures Name(inner) + ">" + Prefix(inner) == inner + ">" && '>' !in Name(inner)
    ensures KindOf("=" + inner) == Behind && KindOf("!" + inner) == NotBehind
    ensures inner == "" || (inner[0] != '=' && inner[0] != '!') ==> KindOf(inner) == Named
  {
    var end := IndexOf(inner, '>');
    if end != -1 {
      assert inner[..end] + ">" + inner[end + 1..] == inner;
      assert Name(inner) + ">" + Prefix(inner) == inner[..end] + ">" + inner[end + 1..] + ">";
    }
  }

  /** `proxy` says that a final `{proxy+}` follows the segments. */
  datatype Pattern = Pattern(segments: seq<Segment>, proxy: bool) {
    ghost predicate Valid() {
      forall g :: g in segments ==> g.Valid()
    }

    /** The regular expression with everything from `(?<` to the next `>` taken out:
        what routes are compared by. */
    function Signature(): Pattern {
      Pattern(seq(|segments|, i requires 0 <= i < |segments| =>
        if segments[i].Param? then Param(Prefix(segments[i].inner), segments[i].suffix) else segments[i]), proxy)
    }
  }

  datatype CompileError = InvalidRoutePath | InvalidGroupName

  const PROXY := "{proxy+}"
  const PROXY_NAME := "proxy+"

  predicate HasBrace(s: string) { '{' in s || '}' in s }

  /** Group names of the regular expression, ASCII ones. */
  predicate IsGroupName(s: string) {
    && s != "" && !('0' <= s[0] <= '9')
    && forall c :: c in s ==> 'a' <= c <= 'z' || 'A' <= c <= 'Z' || '0' <= c <= '9' || c == '_'
  }

  /** Names a regular expression can give its groups: valid and different. */
  /** Letters of either case, underscores and, but for the first, digits. */
  lemma GroupNameChars(c: char, rest: string)
    ensures IsGroupName("azAZ_09") && IsGroupName("z") && IsGroupName("Z") && IsGroupName("A") && IsGroupName("_")
    ensures !IsGroupName("") && !IsGroupName("0") && !IsGroupName("9")
    ensures c in "-$.:@[`{/^|~ " ==> !IsGroupName([c] + rest) && !IsGroupName("a" + [c] + rest)
  {
    assert c in [c] + rest && c in "a" + [c] + rest;
  }

  predicate GroupNames(names: seq<string>) {
    && (forall i :: 0 <= i < |names| ==> IsGroupName(names[i]))
    && forall i, j :: 0 <= i < j < |names| ==> names[i] != names[j]
  }

  /** The two parameter rewrites leave no brace in exactly these segments. */
  function ParseSegment(part: string): Option<Segment> {
    if !HasBrace(part) then Some(Literal(part))
    else
      var close := IndexOf(part, '}');
      if part[0] == '{' && close > 1 && !HasBrace(part[1..close]) && !HasBrace(part[close + 1..])
      then Some(Param(part[1..close], part[close + 1..]))
      else None
  }

  function ParseSegments(parts: seq<string>): (r: Option<seq<Segment>>)
    ensures r.Some? ==> |r.value| == |parts|
    ensures r.Some? ==> forall i :: 0 <= i < |parts| ==> ParseSegment(parts[i]) == Some(r.value[i])
    ensures r.None? ==> exists i :: 0 <= i < |parts| && ParseSegment(parts[i]).None?
  {
    if parts == [] then Some([])
    else
      var first, rest := ParseSegment(parts[0]), ParseSegments(parts[1..]);
      if first.None? || rest.None? then None else Some([first.value] + rest.value)
  }

  predicate IsNamed(g: Segment) { g.Param? && KindOf(g.inner).Named? }

  /** The names of the groups; a match has no groups at all when there are none. */
  function Names(p: Pattern): (names: seq<string>)
    ensures p.segments == [] ==> names == if p.proxy then ["proxy"] else []
    decreases |p.segments|
  {
    if p.segments == [] then if p.proxy then ["proxy"] else []
    else
      var rest := Names(Pattern(p.segments[1..], p.proxy));
      if IsNamed(p.segments[0]) then [Name(p.segments[0].inner)] + rest else rest
  }

  lemma {:induction false} NamesSome(p: Pattern)
    ensures Names(p) != [] <==> p.proxy || exists i :: 0 <= i < |p.segments| && IsNamed(p.segments[i])
    decreases |p.segments|
  {
    if p.segments != [] {
      var rest := Pattern(p.segments[1..], p.proxy);
      NamesSome(rest);
      if i :| 0 <= i < |p.segments| && IsNamed(p.segments[i]) {
        assert i > 0 ==> rest.segments[i - 1] == p.segments[i];
      }
      if i :| 0 <= i < |rest.segments| && IsNamed(rest.segments[i]) {
        assert p.segments[i + 1] == rest.segments[i];
      }
    }
  }

  lemma ParsedValid(parts: seq<string>, p: Pattern)
    requires forall t :: t in parts ==> '/' !in t
    requires |p.segments| <= |parts|
    requires forall i :: 0 <= i < |p.segments| ==> ParseSegment(parts[i]) == Some(p.segments[i])
    ensures p.Valid()
  {
    forall g | g in p.segments
      ensures g.Valid()
    {
      var i :| 0 <= i < |p.segments| && p.segments[i] == g;
      assert parts[i] in parts;
    }
  }

  /** `compileDynamicRoute` on a path that starts with a slash and has no `*`. */
  function Compile(path: string): (r: Result<Pattern, CompileError>)
    requires path != "" && path[0] == '/'
    ensures r.Success? ==> r.value.Valid() && |Parts(path)| == |r.value.segments| + if r.value.proxy then 1 else 0
  {
    var parts := Parts(path);
    var proxy := parts[|parts| - 1] == PROXY;
    var segments := ParseSegments(if proxy then parts[..|parts| - 1] else parts);
    if segments.None? then Failure(InvalidRoutePath)
    else
      var pattern := Pattern(segments.value, proxy);
      var names := Names(pattern);
      if GroupNames(names) then
        PartsSlashFree(path);
        ParsedValid(parts, pattern);
        Success(pattern)
      else Failure(InvalidGroupName)
  }

  /** How a segment is written in a route path, and when it can be. */
  function Written(g: Segment): string {
    if g.Literal? then g.text else "{" + g.inner + "}" + g.suffix
  }

  predicate Writable(g: Segment) {
    if g.Literal? then !HasBrace(g.text) else g.inner != "" && !HasBrace(g.inner) && !HasBrace(g.suffix)
  }

  lemma ParseSegmentExactly(part: string, g: Segment)
    ensures ParseSegment(part) == Some(g) <==> Writable(g) && part == Written(g)
  {
    if g.Param? && Writable(g) && part == Written(g) {
      var close := 1 + |g.inner|;
      assert part[0] == '{' && part[close] == '}' && part[1..close] == g.inner && part[close + 1..] == g.suffix;
      FirstClose(part, close);
    }
    if ParseSegment(part).Some? && HasBrace(part) {
      var close := IndexOf(part, '}');
      assert part == "{" + part[1..close] + "}" + part[close + 1..];
    }
  }

  lemma FirstClose(part: string, close: nat)
    requires 1 <= close < |part| && part[close] == '}' && part[0] == '{' && '}' !in part[1..close]
    ensures IndexOf(part, '}') == close
  {
    var i := IndexOf(part, '}');
    assert forall k :: 0 <= k < i ==> part[..i][k] == part[k];
    assert forall k :: 1 <= k < close ==> part[1..close][k - 1] == part[k];
  }

  /** The path is the pattern's segments, written out, and its final proxy. */
  predicate Writes(p: Pattern, path: string) {
    && |Parts(path)| == |p.segments| + (if p.proxy then 1 else 0)
    && (forall i :: 0 <= i < |p.segments| ==> Writable(p.segments[i]) && Parts(path)[i] == Written(p.segments[i]))
    && (p.proxy ==> Parts(path)[|p.segments|] == PROXY)
  }

  /** A path compiles to the pattern that writes it, exactly when the names of that
      pattern can be group names. */
  lemma CompileExactly(path: string, p: Pattern)
    requires path != "" && path[0] == '/'
    ensures Compile(path) == Success(p) <==> Writes(p, path) && GroupNames(Names(p))
  {
    var parts := Parts(path);
    var proxy := parts[|parts| - 1] == PROXY;
    var plain := if proxy then parts[..|parts| - 1] else parts;
    if Writes(p, path) && GroupNames(Names(p)) {
      ProxyNamed(p, path);
      assert forall i :: 0 <= i < |plain| ==> plain[i] == parts[i];
      forall i | 0 <= i < |plain|
        ensures ParseSegment(plain[i]) == Some(p.segments[i])
      {
        ParseSegmentExactly(parts[i], p.segments[i]);
      }
      ParsedAs(plain, p.segments);
    }
    if Compile(path) == Success(p) {
      forall i | 0 <= i < |p.segments|
        ensures Writable(p.segments[i]) && parts[i] == Written(p.segments[i])
      {
        assert plain[i] == parts[i];
        ParseSegmentExactly(parts[i], p.segments[i]);
      }
    }
  }

  /** Only a proxy is written `{proxy+}`: as a parameter's name it would be no group
      name. */
  lemma ProxyNamed(p: Pattern, path: string)
    requires path != "" && path[0] == '/' && Writes(p, path) && GroupNames(Names(p))
    ensures p.proxy <==> Parts(path)[|Parts(path)| - 1] == PROXY
  {
    hide Parts, Written, Writable, Names;
    if !p.proxy {
      var g := p.segments[|p.segments| - 1];
      if Written(g) == PROXY {
        ProxySegment(g);
        ProxyNameStands();
        NamesOfAll(p, |p.segments| - 1);
      }
    }
  }

  /** The proxy piece reads as a parameter whose name is no group name. */
  lemma ProxySegment(g: Segment)
    requires Writable(g) && Written(g) == PROXY
    ensures g == Param(PROXY_NAME, "") && !IsGroupName(PROXY_NAME)
  {
    hide Writable, Written, ParseSegment;
    ProxyParses();
    ParseSegmentExactly(PROXY, g);
    NoGroupName();
  }

  lemma ProxyNameStands()
    ensures KindOf(PROXY_NAME).Named? && Name(PROXY_NAME) == PROXY_NAME
  {
  }

  lemma NoGroupName()
    ensures !IsGroupName(PROXY_NAME)
  {
    assert PROXY_NAME[5] == '+' && PROXY_NAME[5] in PROXY_NAME;
  }

  lemma ProxyParses()
    ensures ParseSegment(PROXY) == Some(Param(PROXY_NAME, ""))
  {
    assert Writable(Param(PROXY_NAME, "")) by { NoBrace(); }
    assert Written(Param(PROXY_NAME, "")) == PROXY;
    hide Writable, Written, ParseSegment;
    ParseSegmentExactly(PROXY, Param(PROXY_NAME, ""));
  }

  lemma NoBrace()
    ensures !HasBrace(PROXY_NAME) && PROXY_NAME != ""
  {
  }

  lemma ParsedAs(parts: seq<string>, segments: seq<Segment>)
    requires |parts| == |segments|
    requires forall i :: 0 <= i < |parts| ==> ParseSegment(parts[i]) == Some(segments[i])
    ensures ParseSegments(parts) == Some(segments)
  {
    hide ParseSegment;
    var r := ParseSegments(parts);
    assert r.Some?;
    assert r.value == segments by {
      assert forall i :: 0 <= i < |parts| ==> Some(r.value[i]) == Some(segments[i]);
    }
  }

  lemma {:induction false} NamesOfAll(p: Pattern, i: nat)
    requires i < |p.segments| && IsNamed(p.segments[i])
    ensures Name(p.segments[i].inner) in Names(p)
    decreases |p.segments|
  {
    var rest := Pattern(p.segments[1..], p.proxy);
    if i > 0 {
      NamesOfAll(rest, i - 1);
      assert p.segments[i] == rest.segments[i - 1];
    }
  }

  lemma {:induction false} NamesTwice(p: Pattern, i: nat, j: nat)
    requires i < j < |p.segments| && IsNamed(p.segments[i]) && IsNamed(p.segments[j])
    requires Name(p.segments[i].inner) == Name(p.segments[j].inner)
    ensures exists a, b :: 0 <= a < b < |Names(p)| && Names(p)[a] == Names(p)[b]
    decreases |p.segments|
  {
    var rest := Pattern(p.segments[1..], p.proxy);
    assert rest.segments[j - 1] == p.segments[j];
    if i == 0 {
      NamesOfAll(rest, j - 1);
      var b :| 0 <= b < |Names(rest)| && Names(rest)[b] == Name(p.segments[j].inner);
      assert Names(p)[0] == Names(p)[b + 1];
    } else {
      assert rest.segments[i - 1] == p.segments[i];
      NamesTwice(rest, i - 1, j - 1);
      var a, b :| 0 <= a < b < |Names(rest)| && Names(rest)[a] == Names(rest)[b];
      var k := if IsNamed(p.segments[0]) then 1 else 0;
      assert Names(p)[a + k] == Names(rest)[a] && Names(p)[b + k] == Names(rest)[b];
    }
  }

  lemma {:induction false} NamesProxy(p: Pattern, i: nat)
    requires p.proxy && i < |p.segments| && IsNamed(p.segments[i]) && Name(p.segments[i].inner) == "proxy"
    ensures exists a, b :: 0 <= a < b < |Names(p)| && Names(p)[a] == Names(p)[b]
    decreases |p.segments|
  {
    var rest := Pattern(p.segments[1..], true);
    var k := if IsNamed(p.segments[0]) then 1 else 0;
    if i == 0 {
      ProxyLast(rest);
      assert Names(p)[0] == Names(p)[|Names(rest)|];
    } else {
      assert rest.segments[i - 1] == p.segments[i];
      NamesProxy(rest, i - 1);
      var a, b :| 0 <= a < b < |Names(rest)| && Names(rest)[a] == Names(rest)[b];
      assert Names(p)[a + k] == Names(rest)[a] && Names(p)[b + k] == Names(rest)[b];
    }
  }

  lemma {:induction false} ProxyLast(p: Pattern)
    requires p.proxy
    ensures Names(p) != [] && Names(p)[|Names(p)| - 1] == "proxy"
    decreases |p.segments|
  {
    if p.segments != [] {
      ProxyLast(Pattern(p.segments[1..], true));
    }
  }

  /** A path that compiles names no two parameters alike, none like its final proxy, and
      each by a group name. */
  lemma CompiledNames(path: string)
    requires path != "" && path[0] == '/' && Compile(path).Success?
    ensures
      var p := Compile(path).value;
      && (forall i, j :: 0 <= i < j < |p.segments| && IsNamed(p.segments[i]) && IsNamed(p.segments[j]) ==>
            Name(p.segments[i].inner) != Name(p.segments[j].inner))
      && forall i :: 0 <= i < |p.segments| && IsNamed(p.segments[i]) ==>
           IsGroupName(Name(p.segments[i].inner)) && (p.proxy ==> Name(p.segments[i].inner) != "proxy")
  {
    var p := Compile(path).value;
    CompileExactly(path, p);
    hide Compile, Writes, IsGroupName;
    forall i | 0 <= i < |p.segments| && IsNamed(p.segments[i])
      ensures IsGroupName(Name(p.segments[i].inner)) && (p.proxy ==> Name(p.segments[i].inner) != "proxy")
    {
      NamesOfAll(p, i);
      if p.proxy && Name(p.segments[i].inner) == "proxy" {
        NamesProxy(p, i);
      }
    }
    forall i, j | 0 <= i < j < |p.segments| && IsNamed(p.segments[i]) && IsNamed(p.segments[j])
      ensures Name(p.segments[i].inner) != Name(p.segments[j].inner)
    {
      if Name(p.segments[i].inner) == Name(p.segments[j].inner) {
        NamesTwice(p, i, j);
      }
    }
  }

  /** The refusals: for leftover braces exactly when nothing writes the path, and for
      group names exactly when something does and it cannot be compiled. */
  lemma CompileRefusals(path: string)
    requires path != "" && path[0] == '/'
    ensures Compile(path) == Failure(InvalidRoutePath) <==> forall p: Pattern :: !Writes(p, path)
    ensures Compile(path) == Failure(InvalidGroupName)
       <==> (exists p: Pattern :: Writes(p, path)) && forall p: Pattern :: Writes(p, path) ==> !GroupNames(Names(p))
  {
    if Compile(path) == Failure(InvalidRoutePath) {
      forall p: Pattern
        ensures !Writes(p, path)
      {
        NothingWrites(path, p);
      }
    } else {
      var p := SomethingWrites(path);
      hide Compile, Writes, Parts;
      forall q: Pattern | Writes(q, path)
        ensures Compile(path) == Success(q) <==> GroupNames(Names(q))
      {
        CompileExactly(path, q);
      }
      if Compile(path).Success? {
        CompileExactly(path, Compile(path).value);
      }
    }
  }

  lemma NothingWrites(path: string, p: Pattern)
    requires path != "" && path[0] == '/' && Compile(path) == Failure(InvalidRoutePath)
    ensures !Writes(p, path)
  {
    hide ParseSegment, Written, Writable;
    var parts := Parts(path);
    var plain := if parts[|parts| - 1] == PROXY then parts[..|parts| - 1] else parts;
    var i :| 0 <= i < |plain| && ParseSegment(plain[i]).None?;
    assert plain[i] == parts[i];
    if i < |p.segments| {
      ParseSegmentExactly(parts[i], p.segments[i]);
    } else {
      ProxyParses();
    }
  }

  lemma SomethingWrites(path: string) returns (p: Pattern)
    requires path != "" && path[0] == '/' && Compile(path) != Failure(InvalidRoutePath)
    ensures Writes(p, path)
  {
    hide ParseSegment, Written, Writable;
    var parts := Parts(path);
    var proxy := parts[|parts| - 1] == PROXY;
    var plain := if proxy then parts[..|parts| - 1] else parts;
    p := Pattern(ParseSegments(plain).value, proxy);
    forall i | 0 <= i < |p.segments|
      ensures Writable(p.segments[i]) && parts[i] == Written(p.segments[i])
    {
      assert plain[i] == parts[i];
      ParseSegmentExactly(parts[i], p.segments[i]);
    }
  }

  /** The pieces after each slash of a text that starts with one. */
  function Parts(s: string): (parts: seq<string>)
    ensures s != "" && s[0] == '/' ==> parts != []
  {
    if s == "" then [] else
      assert s[0] == '/' ==> |Split(s, '/')| == |Split(s[1..], '/')| + 1;
      Split(s, '/')[1..]
  }

  lemma PartsSlashFree(s: string)
    ensures forall p :: p in Parts(s) ==> '/' !in p
    ensures s != "" && s[0] == '/' ==> Lead(Parts(s), '/') == s && |Parts(s)| == Occurrences(s, '/')
  {
    LeadSplit(s, '/');
    SplitCount(s, '/');
    if s != "" && s[0] == '/' {
      LeadSplit(s[1..], '/');
      assert Parts(s) == Split(s[1..], '/');
      assert ['/'] + s[1..] == s;
    }
  }

  /** `.` matches every character but a line terminator. */
  predicate IsDot(c: char) {
    c != '\n' && c != '\r' && c != '\U{2028}' && c != '\U{2029}'
  }

  predicate AllDots(s: string) {
    forall c :: c in s ==> IsDot(c)
  }

  /** Text one segment of the pattern accepts: for a named group its prefix, `[^/]+`
      and the suffix. A look behind comes right after a slash, where nothing that
      ends in `[^/]+` matches: it never holds, and its negation takes no text. */
  predicate SegmentText(g: Segment, t: string) {
    if g.Literal? then t == g.text
    else
      match KindOf(g.inner)
      case Named =>
        var from, to := |Prefix(g.inner)|, |t| - |g.suffix|;
        from < to && t[..from] == Prefix(g.inner) && t[to..] == g.suffix && '/' !in t[from..to]
      case Behind => false
      case NotBehind => t == g.suffix
  }

  /** What the regular expression accepts, character by character: the segments,
      the optional greedy group, an optional slash, the end. */
  ghost predicate RegexAccepts(segments: seq<Segment>, proxy: bool, s: string)
    decreases |segments|, 1
  {
    if segments == [] then s == "" || s == "/" || (proxy && s[0] == '/' && AllDots(s[1..]))
    else exists k :: RegexTakes(segments, proxy, s, k)
  }

  /** The first segment takes the slash and `k` characters; the rest is accepted. */
  ghost predicate RegexTakes(segments: seq<Segment>, proxy: bool, s: string, k: int)
    requires segments != []
    decreases |segments|, 0
  {
    && 0 <= k < |s| && s[0] == '/'
    && SegmentText(segments[0], s[1..1 + k])
    && RegexAccepts(segments[1..], proxy, s[1 + k..])
  }

  /** The plain reading: the request, cut at its slashes, piece by piece. */
  predicate PiecesAccepted(segments: seq<Segment>, proxy: bool, parts: seq<string>)
    decreases |segments|
  {
    if segments == [] then
      parts == [] || parts == [""] || (proxy && forall p :: p in parts ==> AllDots(p))
    else
      parts != [] && SegmentText(segments[0], parts[0]) && PiecesAccepted(segments[1..], proxy, parts[1..])
  }

  predicate Matches(p: Pattern, s: string) {
    if s == "" then p.segments == [] else s[0] == '/' && PiecesAccepted(p.segments, p.proxy, Parts(s))
  }

  /** After one more piece, a text that goes on at a slash has the other pieces left. */
  lemma PartsAfter(s: string, k: nat)
    requires s != "" && s[0] == '/' && k < |s| && '/' !in s[1..1 + k]
    requires 1 + k == |s| || s[1 + k] == '/'
    ensures Parts(s) == [s[1..1 + k]] + Parts(s[1 + k..])
  {
    var t, rest := s[1..1 + k], s[1 + k..];
    if rest == "" {
      assert s[1..] == t;
      SplitWhole(t, '/');
    } else {
      assert s[1..] == t + ['/'] + rest[1..];
      SplitAround(t, '/', rest[1..]);
      SplitWhole(t, '/');
      assert Split(rest, '/') == [""] + Split(rest[1..], '/');
    }
    assert Split(s, '/') == [""] + Split(s[1..], '/');
  }

  lemma RegexStart(segments: seq<Segment>, proxy: bool, s: string)
    requires RegexAccepts(segments, proxy, s)
    ensures s == "" || s[0] == '/'
  {
  }

  lemma {:induction false} DotsByPiece(s: string)
    ensures AllDots(s) <==> forall p :: p in Split(s, '/') ==> AllDots(p)
  {
    if s != "" {
      DotsByPiece(s[1..]);
      var rest := Split(s[1..], '/');
      assert s == [s[0]] + s[1..];
      if s[0] == '/' {
        assert forall p :: p in Split(s, '/') <==> p == "" || p in rest;
      } else {
        assert forall p :: p in Split(s, '/') <==> p == [s[0]] + rest[0] || p in rest[1..];
        assert forall p :: p in rest <==> p == rest[0] || p in rest[1..];
        assert AllDots([s[0]] + rest[0]) <==> IsDot(s[0]) && AllDots(rest[0]);
      }
    }
  }

  /** The regular expression and the plain reading accept the same requests. */
  lemma {:induction false} RegexIsPiecewise(segments: seq<Segment>, proxy: bool, s: string)
    requires forall g :: g in segments ==> g.Valid()
    requires s == "" || s[0] == '/'
    ensures RegexAccepts(segments, proxy, s) <==> PiecesAccepted(segments, proxy, Parts(s))
    decreases |segments|
  {
    if segments == [] {
      if s != "" {
        assert Parts(s) == Split(s[1..], '/');
        DotsByPiece(s[1..]);
        PartsSlashFree(s);
        assert s == "/" <==> Parts(s) == [""];
      }
    } else if s != "" {
      PartsSlashFree(s);
      var first := |Parts(s)[0]|;
      assert s == ['/'] + Parts(s)[0] + Lead(Parts(s)[1..], '/');
      assert s[1..1 + first] == Parts(s)[0];
      PartsAfter(s, first);
      assert Parts(s)[1..] == Parts(s[1 + first..]);
      RegexIsPiecewise(segments[1..], proxy, s[1 + first..]);
      assert PiecesAccepted(segments, proxy, Parts(s)) ==> RegexTakes(segments, proxy, s, first);
      forall k | RegexTakes(segments, proxy, s, k)
        ensures k == first
      {
        RegexStart(segments[1..], proxy, s[1 + k..]);
        SegmentSlashFree(segments[0], s[1..1 + k]);
        PartsAfter(s, k);
      }
    }
  }

  /** A parameter takes any text without a slash, but not the empty one, between its
      prefix and its suffix. */
  lemma NamedTakes(g: Segment, t: string)
    requires IsNamed(g)
    ensures SegmentText(g, t) <==> exists v: string :: v != "" && '/' !in v && t == Prefix(g.inner) + v + g.suffix
  {
    var prefix, suffix := Prefix(g.inner), g.suffix;
    if SegmentText(g, t) {
      var v := t[|prefix|..|t| - |suffix|];
      assert t == prefix + v + suffix;
    }
    if v: string :| v != "" && '/' !in v && t == prefix + v + suffix {
      assert t[..|prefix|] == prefix && t[|t| - |suffix|..] == suffix && t[|prefix|..|t| - |suffix|] == v;
    }
  }

  lemma SegmentSlashFree(g: Segment, t: string)
    requires g.Valid() && SegmentText(g, t)
    ensures '/' !in t
  {
    if IsNamed(g) {
      var from, to := |Prefix(g.inner)|, |t| - |g.suffix|;
      assert t == t[..from] + t[from..to] + t[to..];
    }
  }

  /** Some segment can never be taken. */
  predicate HasBehind(segments: seq<Segment>) {
    exists i :: 0 <= i < |segments| && segments[i].Param? && KindOf(segments[i].inner).Behind?
  }

  predicate SameKinds(p: Pattern, q: Pattern) {
    && |p.segments| == |q.segments|
    && forall i :: 0 <= i < |p.segments| && p.segments[i].Param? && q.segments[i].Param? ==>
         KindOf(p.segments[i].inner) == KindOf(q.segments[i].inner)
  }

  lemma SignatureAt(p: Pattern, q: Pattern)
    requires p.Signature() == q.Signature()
    ensures |p.segments| == |q.segments| && p.proxy == q.proxy
    ensures forall i :: 0 <= i < |p.segments| ==> AlikeButName(p.segments[i], q.segments[i])
  {
    assert |p.Signature().segments| == |p.segments| && |q.Signature().segments| == |q.segments|;
    forall i | 0 <= i < |p.segments|
      ensures AlikeButName(p.segments[i], q.segments[i])
    {
      assert p.Signature().segments[i] == q.Signature().segments[i];
    }
  }

  /** Patterns share a signature if and only if they differ at most in the names of their
      parameters, a `=` or `!` before them included. */
  lemma SignatureIff(p: Pattern, q: Pattern)
    ensures p.Signature() == q.Signature() <==>
      && |p.segments| == |q.segments| && p.proxy == q.proxy
      && forall i :: 0 <= i < |p.segments| ==>
           || p.segments[i] == q.segments[i]
           || (&& p.segments[i].Param? && q.segments[i].Param? && p.segments[i].suffix == q.segments[i].suffix
               && Prefix(p.segments[i].inner) == Prefix(q.segments[i].inner))
  {
    hide Prefix;
    if p.Signature() == q.Signature() {
      SignatureAt(p, q);
    }
  }

  /** What a list of segments accepts, all the segments take their pieces of. */
  lemma {:induction false} PiecesTaken(segments: seq<Segment>, proxy: bool, parts: seq<string>)
    requires PiecesAccepted(segments, proxy, parts)
    ensures |segments| <= |parts|
    ensures forall i :: 0 <= i < |segments| ==> SegmentText(segments[i], parts[i])
    decreases |segments|
  {
    if segments != [] {
      PiecesTaken(segments[1..], proxy, parts[1..]);
      forall i | 0 < i < |segments|
        ensures SegmentText(segments[i], parts[i])
      {
        assert segments[i] == segments[1..][i - 1] && parts[i] == parts[1..][i - 1];
      }
    }
  }

  lemma {:induction false} SameText(a: seq<Segment>, b: seq<Segment>, proxy: bool, parts: seq<string>)
    requires |a| == |b|
    requires forall i, t :: 0 <= i < |a| ==> (SegmentText(a[i], t) <==> SegmentText(b[i], t))
    ensures PiecesAccepted(a, proxy, parts) <==> PiecesAccepted(b, proxy, parts)
    decreases |a|
  {
    if a != [] && parts != [] {
      assert SegmentText(a[0], parts[0]) <==> SegmentText(b[0], parts[0]);
      hide SegmentText;
      SameText(a[1..], b[1..], proxy, parts[1..]);
    }
  }

  /** Segments alike but for the name, and perhaps for the kind. */
  predicate AlikeButName(a: Segment, b: Segment) {
    if a.Literal? then a == b else b.Param? && Prefix(a.inner) == Prefix(b.inner) && a.suffix == b.suffix
  }

  lemma SameKindSameText(a: Segment, b: Segment, t: string)
    requires AlikeButName(a, b) && (a.Param? ==> KindOf(a.inner) == KindOf(b.inner))
    ensures SegmentText(a, t) <==> SegmentText(b, t)
  {
    hide Prefix, KindOf;
  }

  lemma OtherKindOtherText(a: Segment, b: Segment, t: string)
    requires AlikeButName(a, b) && a.Param? && KindOf(a.inner) != KindOf(b.inner) && SegmentText(a, t)
    ensures !SegmentText(b, t)
  {
    hide Prefix, KindOf;
  }

  /** Names do not matter to what is accepted, as long as the kinds are the same. */
  lemma SameSignatureSameRequests(p: Pattern, q: Pattern, s: string)
    requires p.Signature() == q.Signature() && SameKinds(p, q)
    ensures Matches(p, s) <==> Matches(q, s)
  {
    SignatureAt(p, q);
    forall i, t | 0 <= i < |p.segments|
      ensures SegmentText(p.segments[i], t) <==> SegmentText(q.segments[i], t)
    {
      SameKindSameText(p.segments[i], q.segments[i], t);
    }
    hide SegmentText;
    SameText(p.segments, q.segments, p.proxy, Parts(s));
  }

  /** Two patterns with one signature accept the same requests if and only if their
      parameters are of the same kinds, or neither accepts any. */
  lemma SameRequestsIff(p: Pattern, q: Pattern)
    requires p.Valid() && q.Valid() && p.Signature() == q.Signature()
    ensures (forall s :: Matches(p, s) <==> Matches(q, s))
       <==> SameKinds(p, q) || (HasBehind(p.segments) && HasBehind(q.segments))
  {
    SignatureAt(p, q);
    if SameKinds(p, q) {
      forall s
        ensures Matches(p, s) <==> Matches(q, s)
      {
        SameSignatureSameRequests(p, q, s);
      }
    } else if HasBehind(p.segments) && HasBehind(q.segments) {
      forall s
        ensures !Matches(p, s) && !Matches(q, s)
      {
        BehindAcceptsNothing(p, s);
        BehindAcceptsNothing(q, s);
      }
    } else {
      KindsDiffer(p, q);
    }
  }

  lemma BehindAcceptsNothing(p: Pattern, s: string)
    requires HasBehind(p.segments)
    ensures !Matches(p, s)
  {
    if Matches(p, s) {
      PiecesTaken(p.segments, p.proxy, Parts(s));
      assert false;
    }
  }

  lemma KindsDiffer(p: Pattern, q: Pattern)
    requires p.Valid() && q.Valid() && p.Signature() == q.Signature() && !SameKinds(p, q)
    requires !HasBehind(p.segments) || !HasBehind(q.segments)
    ensures exists s :: Matches(p, s) != Matches(q, s)
  {
    SignatureAt(p, q);
    if HasBehind(p.segments) {
      BehindAcceptsNothing(p, SampleRequest(q));
      SampleMatches(q);
    } else {
      SampleMatches(p);
      SampleAccepted(p.segments, p.proxy);
      PiecesTaken(p.segments, p.proxy, Sample(p.segments));
      var i :|
        0 <= i < |p.segments| && p.segments[i].Param? && KindOf(p.segments[i].inner) != KindOf(q.segments[i].inner);
      OtherKindOtherText(p.segments[i], q.segments[i], Sample(p.segments)[i]);
      hide SegmentText;
      if Matches(q, SampleRequest(p)) {
        PiecesTaken(q.segments, q.proxy, Sample(p.segments));
        assert false;
      }
    }
  }

  /** The slash count of a request, less a trailing slash. */
  function RequestSegments(path: string): int
    requires path != ""
  {
    Occurrences(path, '/') - if path[|path| - 1] == '/' then 1 else 0
  }

  /** The slash count a pattern is filed under, -1 for any. */
  function SegmentCount(p: Pattern): int {
    if p.proxy then -1 else |p.segments|
  }

  predicate FilterPasses(p: Pattern, path: string)
    requires path != ""
  {
    SegmentCount(p) == -1 || SegmentCount(p) == RequestSegments(path)
  }

  /** The segment takes the empty text. */
  predicate TakesNothing(g: Segment) {
    if g.Literal? then g.text == "" else KindOf(g.inner).NotBehind? && g.suffix == ""
  }

  /** The pattern accepts requests, and its last segment takes the empty text. */
  predicate EndsEmpty(p: Pattern) {
    !p.proxy && p.segments != [] && TakesNothing(p.segments[|p.segments| - 1]) && !HasBehind(p.segments)
  }

  lemma {:induction false} PiecesCount(segments: seq<Segment>, parts: seq<string>)
    requires PiecesAccepted(segments, false, parts)
    ensures |parts| == |segments| || (|parts| == |segments| + 1 && parts[|segments|] == "")
    ensures |parts| == |segments| > 0 ==> SegmentText(segments[|segments| - 1], parts[|parts| - 1])
    decreases |segments|
  {
    if segments != [] {
      PiecesCount(segments[1..], parts[1..]);
    }
  }

  lemma LastPieceEmpty(s: string)
    requires s != "" && s[0] == '/'
    ensures Parts(s)[|Parts(s)| - 1] == "" <==> s[|s| - 1] == '/'
  {
    PartsSlashFree(s);
    LeadEnd(Parts(s));
  }

  lemma {:induction false} LeadEnd(parts: seq<string>)
    requires parts != [] && forall p :: p in parts ==> '/' !in p
    ensures Lead(parts, '/') != ""
    ensures parts[|parts| - 1] == "" <==> Lead(parts, '/')[|Lead(parts, '/')| - 1] == '/'
  {
    if |parts| == 1 {
      assert Lead(parts, '/') == ['/'] + parts[0];
      if parts[0] != "" {
        assert parts[0][|parts[0]| - 1] in parts[0];
      }
    } else {
      LeadEnd(parts[1..]);
    }
  }

  /** A request the pattern accepts. */
  function Sample(segments: seq<Segment>): seq<string> {
    if segments == [] then [] else [SampleOf(segments[0])] + Sample(segments[1..])
  }

  function SampleOf(g: Segment): string {
    if g.Literal? then g.text else if IsNamed(g) then Prefix(g.inner) + "a" + g.suffix else g.suffix
  }

  function SampleRequest(p: Pattern): string {
    Lead(Sample(p.segments), '/')
  }

  lemma {:induction false} SampleIs(segments: seq<Segment>)
    ensures |Sample(segments)| == |segments|
    ensures forall i :: 0 <= i < |segments| ==> Sample(segments)[i] == SampleOf(segments[i])
  {
    if segments != [] {
      SampleIs(segments[1..]);
    }
  }

  lemma SampleFront(segments: seq<Segment>)
    requires |segments| >= 2 && !TakesNothing(segments[|segments| - 2]) && TakesNothing(segments[|segments| - 1])
    requires forall i :: 0 <= i < |segments| ==> segments[i].Valid()
    requires !HasBehind(segments)
    ensures
      var all, front := Sample(segments), Sample(segments[..|segments| - 1]);
      && |front| == |segments| - 1 && all == front + [""] && front[|front| - 1] != ""
      && forall t :: t in front ==> '/' !in t
  {
    var n := |segments|;
    SampleAccepted(segments, true);
    SampleIs(segments);
    SampleIs(segments[..n - 1]);
    SampleText(segments[n - 2]);
  }

  lemma SampleText(g: Segment)
    requires g.Valid() && (g.Param? ==> !KindOf(g.inner).Behind?)
    ensures SegmentText(g, SampleOf(g)) && '/' !in SampleOf(g)
  {
    if IsNamed(g) {
      var from := |Prefix(g.inner)|;
      var t := SampleOf(g);
      assert t[..from] == Prefix(g.inner) && t[from + 1..] == g.suffix && t[from..from + 1] == "a";
      assert |t| - |g.suffix| == from + 1;
    }
    SegmentSlashFree(g, SampleOf(g));
  }

  lemma {:induction false} SampleAccepted(segments: seq<Segment>, proxy: bool)
    requires forall i :: 0 <= i < |segments| ==> segments[i].Valid()
    requires !HasBehind(segments)
    ensures |Sample(segments)| == |segments|
    ensures PiecesAccepted(segments, proxy, Sample(segments))
    ensures forall p :: p in Sample(segments) ==> '/' !in p
    ensures segments != [] && TakesNothing(segments[|segments| - 1]) ==> Sample(segments)[|segments| - 1] == ""
    decreases |segments|
  {
    if segments != [] {
      assert !HasBehind(segments[1..]) by {
        assert forall i :: 0 <= i < |segments| - 1 ==> segments[1..][i] == segments[i + 1];
      }
      SampleAccepted(segments[1..], proxy);
      SampleText(segments[0]);
      hide SegmentText;
      assert Sample(segments)[1..] == Sample(segments[1..]);
    }
  }

  lemma SampleMatches(p: Pattern)
    requires p.Valid() && !HasBehind(p.segments)
    ensures Matches(p, SampleRequest(p))
    ensures p.segments != [] ==> SampleRequest(p) != "" && Parts(SampleRequest(p)) == Sample(p.segments)
  {
    SampleAccepted(p.segments, p.proxy);
    var parts := Sample(p.segments);
    if parts != [] {
      SplitLead(parts, '/');
      LeadEnd(parts);
      assert Parts(Lead(parts, '/')) == parts;
    }
  }

  /** The filter never turns away a request the pattern accepts, unless its last
      segment takes the empty text: then it turns one away. */
  lemma FilterNeverMatters(p: Pattern)
    requires p.Valid() && (p.segments != [] || p.proxy)
    ensures (forall s :: s != "" && Matches(p, s) ==> FilterPasses(p, s)) <==> !EndsEmpty(p)
  {
    if EndsEmpty(p) {
      SampleAccepted(p.segments, p.proxy);
      SampleMatches(p);
      var s := SampleRequest(p);
      LeadEnd(Sample(p.segments));
      PartsSlashFree(s);
      assert Matches(p, s) && !FilterPasses(p, s);
    } else {
      forall s | s != "" && Matches(p, s)
        ensures FilterPasses(p, s)
      {
        AcceptedPasses(p, s);
      }
    }
  }

  lemma AcceptedPasses(p: Pattern, s: string)
    requires !EndsEmpty(p) && s != "" && Matches(p, s)
    ensures FilterPasses(p, s)
  {
    if HasBehind(p.segments) {
      BehindAcceptsNothing(p, s);
    } else if !p.proxy {
      PiecesCount(p.segments, Parts(s));
      PartsSlashFree(s);
      LastPieceEmpty(s);
      hide PiecesAccepted;
    }
  }

  /** A compiled path is filed under its own slash count, unless it has a proxy. It is
      the exception above exactly when it can be matched and ends with a slash or
      with a negative look behind. */
  lemma CompiledPath(path: string)
    requires path != "" && path[0] == '/' && Compile(path).Success?
    ensures
      var p := Compile(path).value;
      && (p.segments != [] || p.proxy)
      && (!p.proxy ==> SegmentCount(p) == Occurrences(path, '/'))
      && (EndsEmpty(p) <==>
            && !HasBehind(p.segments) && !p.proxy
            && (path[|path| - 1] == '/' ||
                (p.segments[|p.segments| - 1].Param? && TakesNothing(p.segments[|p.segments| - 1]))))
  {
    var p := Compile(path).value;
    PartsSlashFree(path);
    LastPieceEmpty(path);
    var last := Parts(path)[|Parts(path)| - 1];
    if !p.proxy {
      assert ParseSegment(last) == Some(p.segments[|p.segments| - 1]);
    }
  }

  // ---- The optional slash ----

  /** A trailing slash of the request makes a difference: where a final `{proxy+}` comes
      after a segment that takes only the empty text, and that one after another kind. */
  predicate SlashMatters(p: Pattern) {
    var n := |p.segments|;
    && p.proxy && n >= 2 && TakesNothing(p.segments[n - 1]) && !TakesNothing(p.segments[n - 2])
    && !HasBehind(p.segments)
  }

  lemma {:induction false} OneMoreEmpty(segments: seq<Segment>, proxy: bool, parts: seq<string>)
    requires parts != [] && parts[|parts| - 1] != "" && |parts| + 1 != |segments|
    ensures PiecesAccepted(segments, proxy, parts + [""]) <==> PiecesAccepted(segments, proxy, parts)
    decreases |segments|
  {
    var more := parts + [""];
    if segments == [] {
      assert more != [] && more != [""];
      assert forall t :: t in more <==> t in parts || t == "";
    } else {
      assert more[1..] == parts[1..] + [""];
      if |parts| > 1 {
        OneMoreEmpty(segments[1..], proxy, parts[1..]);
      } else {
        assert parts[1..] == [] && more[1..] == [""];
        NothingMore(segments[1..], proxy);
      }
    }
  }

  lemma NothingMore(segments: seq<Segment>, proxy: bool)
    requires |segments| != 1
    ensures PiecesAccepted(segments, proxy, []) <==> segments == []
    ensures PiecesAccepted(segments, proxy, [""]) <==> segments == []
  {
    if segments != [] {
      assert [""][1..] == [] && segments[1..] != [];
      assert !PiecesAccepted(segments[1..], proxy, []);
    }
  }

  lemma PartsSlash(s: string)
    requires s != "" && s[0] == '/'
    ensures Parts(s + "/") == Parts(s) + [""] && Occurrences(s + "/", '/') == Occurrences(s, '/') + 1
  {
    assert s + "/" == s + ['/'] + [];
    SplitAround(s, '/', []);
    SplitCount(s, '/');
    SplitCount(s + "/", '/');
  }

  /** A request without a trailing slash and the same one with it: taken alike, filter
      and all, unless the slash matters. */
  lemma SlashOptional(p: Pattern, s: string)
    requires !SlashMatters(p) && s != "" && s[|s| - 1] != '/'
    ensures Matches(p, s) && FilterPasses(p, s) <==> Matches(p, s + "/") && FilterPasses(p, s + "/")
  {
    if s[0] == '/' {
      PartsSlash(s);
      PartsSlashFree(s);
      LastPieceEmpty(s);
      var parts, n := Parts(s), |p.segments|;
      hide Parts, SegmentText, HasBehind, Split, Occurrences;
      if |parts| + 1 != n {
        OneMoreEmpty(p.segments, p.proxy, parts);
      } else if p.proxy {
        TooFewPieces(p.segments, parts);
        if PiecesAccepted(p.segments, true, parts + [""]) {
          PiecesTaken(p.segments, true, parts + [""]);
          assert (parts + [""])[n - 1] == "" && (parts + [""])[n - 2] == parts[n - 2];
          OnlyNothing(p.segments[n - 1]);
          OnlyNothing(p.segments[n - 2]);
          TakenNotBehind(p.segments, parts + [""]);
        }
      }
    }
  }

  lemma TooFewPieces(segments: seq<Segment>, parts: seq<string>)
    requires |parts| < |segments|
    ensures !PiecesAccepted(segments, true, parts)
  {
    if PiecesAccepted(segments, true, parts) {
      PiecesTaken(segments, true, parts);
    }
  }

  lemma TakenNotBehind(segments: seq<Segment>, parts: seq<string>)
    requires |segments| <= |parts| && forall i :: 0 <= i < |segments| ==> SegmentText(segments[i], parts[i])
    ensures !HasBehind(segments)
  {
  }

  lemma OnlyNothing(g: Segment)
    ensures SegmentText(g, "") ==> TakesNothing(g)
    ensures TakesNothing(g) ==> forall t :: SegmentText(g, t) ==> t == ""
  {
  }

  /** Where the slash matters, some request is taken only with it. */
  lemma SlashNeeded(p: Pattern) returns (s: string)
    requires p.Valid() && SlashMatters(p)
    ensures s != "" && s[|s| - 1] != '/'
    ensures !(Matches(p, s) && FilterPasses(p, s)) && Matches(p, s + "/") && FilterPasses(p, s + "/")
  {
    var n := |p.segments|;
    var parts := Sample(p.segments[..n - 1]);
    assert HasBehind(p.segments) == false;
    SampleAccepted(p.segments, true);
    SampleFront(p.segments);
    hide Sample, Parts, Lead, HasBehind, TakesNothing, PiecesAccepted, Occurrences, Split;
    s := Lead(parts, '/');
    LeadEnd(parts);
    LeadParts(parts);
    PartsSlash(s);
    TooFewPieces(p.segments, parts);
  }

  lemma LeadParts(parts: seq<string>)
    requires parts != [] && forall t :: t in parts ==> '/' !in t
    ensures Lead(parts, '/') != "" && Lead(parts, '/')[0] == '/' && Parts(Lead(parts, '/')) == parts
  {
    SplitLead(parts, '/');
  }

  /** The trailing slash of a request is optional, if and only if it does not matter. */
  lemma SlashOptionalIff(p: Pattern)
    requires p.Valid()
    ensures (forall s :: s != "" && s[|s| - 1] != '/' ==>
               (Matches(p, s) && FilterPasses(p, s) <==> Matches(p, s + "/") && FilterPasses(p, s + "/")))
       <==> !SlashMatters(p)
  {
    if SlashMatters(p) {
      var s := SlashNeeded(p);
    } else {
      forall s | s != "" && s[|s| - 1] != '/'
        ensures Matches(p, s) && FilterPasses(p, s) <==> Matches(p, s + "/") && FilterPasses(p, s + "/")
      {
        SlashOptional(p, s);
      }
    }
    hide Matches, FilterPasses, SlashMatters;
  }

  lemma GroupNameIsPlain(x: string)
    requires IsGroupName(x)
    ensures KindOf(x).Named? && Name(x) == x && Prefix(x) == "" && !HasBrace(x) && '/' !in x
  {
    assert x[0] in x;
  }

  /** Such paths, with the request `/1/` that the filter keeps from them: `/{x}/`, which
      is left of `/{x}//`, and `/{x}/{!y}`, which the option schema allows; for every
      name, and every `!y` in the second. */
  lemma TurnedAway(x: string, last: Segment)
    requires IsGroupName(x) && Writable(last) && last.Valid() && TakesNothing(last)
    ensures
      var p := Pattern([Param(x, ""), last], false);
      && Compile(['/'] + Written(Param(x, "")) + ['/'] + Written(last)) == Success(p)
      && RegexAccepts(p.segments, p.proxy, "/1/") && !FilterPasses(p, "/1/")
  {
    GroupNameIsPlain(x);
    assert Writable(Param(x, "")) && '/' !in Written(Param(x, ""));
    assert '/' !in Written(last) && !IsNamed(last);
    OneGroup(x, last);
    NotProxy(last);
    hide Writable, Written, TakesNothing, IsGroupName;
    CompilesTo(Param(x, ""), last);
    assert TakesNothing(last);
    OneThenNothing(x, last);
  }

  lemma NotProxy(last: Segment)
    requires Writable(last) && TakesNothing(last)
    ensures Written(last) != PROXY
  {
    if Written(last) == PROXY {
      ProxySegment(last);
      ProxyNameStands();
    }
  }

  lemma OneThenNothing(x: string, last: Segment)
    requires '/' !in x && KindOf(x).Named? && Prefix(x) == "" && last.Valid() && TakesNothing(last)
    ensures RegexAccepts([Param(x, ""), last], false, "/1/")
    ensures !FilterPasses(Pattern([Param(x, ""), last], false), "/1/")
  {
    var segments := [Param(x, ""), last];
    SplitLead(["1", ""], '/');
    assert ["1", ""][1..] == [""] && [""][1..] == [];
    assert Lead(["1", ""], '/') == "/1/";
    assert Parts("/1/") == ["1", ""];
    PartsSlashFree("/1/");
    assert SegmentText(segments[0], "1") && SegmentText(last, "");
    assert segments[1..] == [last] && [last][1..] == [];
    assert PiecesAccepted([last], false, [""]);
    assert PiecesAccepted(segments, false, ["1", ""]);
    RegexIsPiecewise(segments, false, "/1/");
  }

  lemma OneGroup(x: string, last: Segment)
    requires IsGroupName(x) && Name(x) == x && KindOf(x).Named? && !IsNamed(last)
    ensures GroupNames(Names(Pattern([Param(x, ""), last], false)))
  {
    hide IsGroupName, Name, KindOf;
    assert IsNamed(Param(x, ""));
    assert [Param(x, ""), last][1..] == [last] && [last][1..] == [];
    assert Names(Pattern([last], false)) == [];
    assert Names(Pattern([Param(x, ""), last], false)) == [x];
  }

  lemma CompilesTo(g: Segment, h: Segment)
    requires Writable(g) && Writable(h) && '/' !in Written(g) && '/' !in Written(h)
    requires Written(h) != PROXY && GroupNames(Names(Pattern([g, h], false)))
    ensures Compile(['/'] + Written(g) + ['/'] + Written(h)) == Success(Pattern([g, h], false))
  {
    hide Written, Writable, Names, GroupNames;
    var a, b := Written(g), Written(h);
    var path := ['/'] + a + ['/'] + b;
    SplitLead([a, b], '/');
    LeadStep(a, [b], '/');
    LeadStep(b, [], '/');
    assert [a] + [b] == [a, b] && [b] + [] == [b] && b + [] == b;
    assert ['/'] + (a + (['/'] + b)) == path;
    assert Parts(path) == [a, b];
    CompileExactly(path, Pattern([g, h], false));
  }
}
