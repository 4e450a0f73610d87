/** The `url_for` template function (src/templates/url_for.rs): it picks a route by name,
    method and rank, writes the route's path and query into a growing buffer with the
    `<key>` placeholders replaced by template arguments, and tidies the query separators. */
module UrlFor {
  import opened Common
  import opened Strings
  import opened Ints

  // ---- Template arguments ----

  /** A JSON template argument.  `Num` is an integer; every other number, array or object
      is `Other`, carrying the text its `Display` writes. */
  datatype Value = Null | Bool(b: bool) | Str(s: string) | Num(n: int) | Other(json: string)

  type Args = map<string, Value>

  /** The JSON text of a value that is not a string. */
  function JsonText(v: Value): (r: string)
    requires !v.Str?
    ensures v.Num? ==> r == IntToString(v.n)
    ensures v.Null? ==> r == "null"
    ensures v.Bool? ==> r == (if v.b then "true" else "false")
  {
    match v
    case Null => "null"
    case Bool(b) => if b then "true" else "false"
    case Num(n) => IntToString(n)
    case Other(j) => j
  }

  /** A mounted route: the handler's name, its HTTP method, its rank, and its URI template
      split into path and optional query. */
  datatype Route = Route(name: Option<string>, httpMethod: string, rank: int, path: string, query: Option<string>)

  datatype UrlError =
    | MissingEndpoint                              // "url_for was called without endpoint argument"
    | EndpointNotString(endpointValue: Value)
    | ExternalNotBool(endpoint: string, externalValue: Value)
    | SchemeNotString(endpoint: string, schemeValue: Value)
    | NoServerName                                 // an external URL without an address
    | MissingParameter(key: string, routeName: Option<string>)
    | NoRoute(endpoint: string)
    | AnchorNotString(endpoint: string, anchorValue: Value)

  // ---- Placeholders ----

  /** The first `<key>` of a template: the text before it, the key, and the text after. */
  function Placeholder(s: string): (r: Option<(string, string, string)>)
    ensures r.None? <==> '<' !in s || '>' !in SplitOnce(s, '<').value.1
    ensures r.Some? ==> s == r.value.0 + "<" + r.value.1 + ">" + r.value.2
                        && '<' !in r.value.0 && '>' !in r.value.1
  {
    match SplitOnce(s, '<')
    case None => None
    case Some((prefix, remaining)) =>
      match SplitOnce(remaining, '>')
      case None => None
      case Some((key, suffix)) =>
        JoinAround(s, prefix, remaining, key, suffix);
        Some((prefix, key, suffix))
  }

  lemma JoinAround(s: string, prefix: string, remaining: string, key: string, suffix: string)
    requires s == prefix + ['<'] + remaining && remaining == key + ['>'] + suffix
    ensures s == prefix + "<" + key + ">" + suffix
  {
    assert s == prefix + ['<'] + key + ['>'] + suffix;
  }

  lemma PlaceholderAt(prefix: string, key: string, suffix: string)
    requires '<' !in prefix && '>' !in key
    ensures Placeholder(prefix + "<" + key + ">" + suffix) == Some((prefix, key, suffix))
  {
    SplitOnceAt(prefix, '<', key + ">" + suffix);
    assert prefix + "<" + key + ">" + suffix == prefix + ['<'] + (key + ">" + suffix);
    SplitOnceAt(key, '>', suffix);
    assert key + ">" + suffix == key + ['>'] + suffix;
  }

  /** A path key may be written `<key..>` for a trailing segment; the `..` is not part of
      the argument's name. */
  function ShortKey(key: string): (r: string)
    ensures r == key || r + ".." == key
    ensures StripSuffix(key, "..").None? ==> r == key
  {
    match StripSuffix(key, "..")
    case Some(short) => short
    case None => key
  }

  /** What a path argument writes: a string verbatim, anything else as JSON. */
  function PathText(v: Value): string {
    if v.Str? then v.s else JsonText(v)
  }

  /** The path with every placeholder replaced, or the first key that has no argument. */
  function RenderPath(path: string, args: Args): (r: Result<string, string>)
    ensures '<' !in path ==> r == Ok(path)
    decreases |path|
  {
    if path == [] then Ok([])
    else
      match Placeholder(path)
      case None => Ok(path)
      case Some((prefix, key, suffix)) =>
        var k := ShortKey(key);
        if k !in args then Err(k)
        else
          match RenderPath(suffix, args)
          case Err(e) => Err(e)
          case Ok(rest) => Ok(prefix + PathText(args[k]) + rest)
  }

  /** A rendering with `written` in front of it. */
  function Prefixed(written: string, r: Result<string, string>): (p: Result<string, string>)
    ensures p.Err? <==> r.Err?
    ensures r.Err? ==> p == r
    ensures r.Ok? ==> p.value == written + r.value
  {
    if r.Ok? then Ok(written + r.value) else r
  }

  /** One turn of the path loop of `write_path_parameters`. */
  lemma PathStep(path: string, args: Args)
    requires path != []
    ensures Placeholder(path).None? ==> RenderPath(path, args) == Ok(path)
    ensures Placeholder(path).Some? ==>
              var (prefix, key, suffix) := Placeholder(path).value;
              RenderPath(path, args)
              == if ShortKey(key) in args then Prefixed(prefix + PathText(args[ShortKey(key)]), RenderPath(suffix, args))
                 else Err(ShortKey(key))
  {
  }

  lemma PrefixedStep(w: string, v: string, r: Result<string, string>)
    ensures Prefixed(w, Prefixed(v, r)) == Prefixed(w + v, r)
  {
    if r.Ok? {
      Associate(w, v, r.value);
    }
  }

  /** The literal text before a placeholder is copied, then the argument, then the rest. */
  lemma PathPlaceholderReplaced(prefix: string, key: string, suffix: string, args: Args)
    requires '<' !in prefix && '>' !in key && ShortKey(key) in args
    ensures RenderPath(prefix + "<" + key + ">" + suffix, args)
            == (match RenderPath(suffix, args)
                case Err(e) => Err(e)
                case Ok(rest) => Ok(prefix + PathText(args[ShortKey(key)]) + rest))
  {
    PlaceholderAt(prefix, key, suffix);
  }

  /** The first placeholder whose argument is missing is the error. */
  lemma PathMissingArgument(prefix: string, key: string, suffix: string, args: Args)
    requires '<' !in prefix && '>' !in key && ShortKey(key) !in args
    ensures RenderPath(prefix + "<" + key + ">" + suffix, args) == Err(ShortKey(key))
  {
    PlaceholderAt(prefix, key, suffix);
  }

  /** A `<` that is never closed is literal text, and so is everything after it. */
  lemma PathUnclosedPlaceholder(prefix: string, rest: string, args: Args)
    requires '<' !in prefix && '>' !in rest
    ensures RenderPath(prefix + "<" + rest, args) == Ok(prefix + "<" + rest)
  {
    SplitOnceAt(prefix, '<', rest);
    assert prefix + "<" + rest == prefix + ['<'] + rest;
  }

  /** What a query argument writes: nothing for null, false or a missing argument, the bare
      key for true, `key=value` otherwise. */
  function QueryText(key: string, args: Args): string {
    if key !in args then []
    else
      match args[key]
      case Null => []
      case Bool(b) => if b then key else []
      case Str(s) => key + "=" + s
      case v => key + "=" + JsonText(v)
  }

  /** The query with every placeholder replaced; keys keep any `..`. */
  function RenderQuery(query: string, args: Args): (r: string)
    ensures '<' !in query ==> r == query
    decreases |query|
  {
    if query == [] then []
    else
      match Placeholder(query)
      case None => query
      case Some((prefix, key, suffix)) => prefix + QueryText(key, args) + RenderQuery(suffix, args)
  }

  /** One turn of the query loop of `write_query_parameters`. */
  lemma QueryStep(query: string, args: Args)
    requires query != []
    ensures Placeholder(query).None? ==> RenderQuery(query, args) == query
    ensures Placeholder(query).Some? ==>
              var (prefix, key, suffix) := Placeholder(query).value;
              RenderQuery(query, args) == prefix + QueryText(key, args) + RenderQuery(suffix, args)
  {
  }

  lemma QueryPlaceholderReplaced(prefix: string, key: string, suffix: string, args: Args)
    requires '<' !in prefix && '>' !in key
    ensures RenderQuery(prefix + "<" + key + ">" + suffix, args) == prefix + QueryText(key, args) + RenderQuery(suffix, args)
  {
    PlaceholderAt(prefix, key, suffix);
  }

  /** A query placeholder whose argument is absent, null or false disappears. */
  lemma QueryArgumentOmitted(key: string, args: Args)
    requires key !in args || args[key] == Null || args[key] == Bool(false)
    ensures QueryText(key, args) == []
  {
  }

  // ---- Query separators ----

  predicate IsQuerySeparator(c: char) {
    c == '&' || c == '?'
  }

  /** No two neighbouring characters are both separators. */
  predicate NoAdjacentSeparators(s: string) {
    forall i :: 0 < i < |s| ==> !(IsQuerySeparator(s[i - 1]) && IsQuerySeparator(s[i]))
  }

  predicate EndsWithSeparator(s: string) {
    s != [] && IsQuerySeparator(s[|s| - 1])
  }

  /** The characters that are not separators, in order. */
  function NonSeparators(s: string): (r: string)
    ensures forall c :: c in r ==> c in s && !IsQuerySeparator(c)
  {
    if s == [] then []
    else NonSeparators(s[..|s| - 1]) + (if IsQuerySeparator(s[|s| - 1]) then [] else [s[|s| - 1]])
  }

  /** The `retain` pass: a separator that follows a separator is dropped. */
  function Dedup(s: string): (r: string)
    ensures |r| <= |s|
  {
    if |s| <= 1 then s
    else Dedup(s[..|s| - 1]) + (if IsQuerySeparator(s[|s| - 2]) && IsQuerySeparator(s[|s| - 1]) then [] else [s[|s| - 1]])
  }

  /** The `pop` loop: trailing separators are removed. */
  function TrimTrailingSeparators(s: string): (r: string)
    ensures r <= s && !EndsWithSeparator(r)
    ensures forall i :: |r| <= i < |s| ==> IsQuerySeparator(s[i])
  {
    if s == [] then []
    else if IsQuerySeparator(s[|s| - 1]) then TrimTrailingSeparators(s[..|s| - 1])
    else s
  }

  /** `clean_query_parameters`: no two separators in a row, none at the end, and only
      separators are removed. */
  function Clean(s: string): (r: string)
    ensures NoAdjacentSeparators(r) && !EndsWithSeparator(r)
    ensures NonSeparators(r) == NonSeparators(s)
  {
    DedupHasNoAdjacent(s);
    DedupKeepsNonSeparators(s);
    PrefixKeepsNoAdjacent(Dedup(s), TrimTrailingSeparators(Dedup(s)));
    TrimKeepsNonSeparators(Dedup(s));
    TrimTrailingSeparators(Dedup(s))
  }

  lemma {:induction false} DedupLast(s: string)
    requires s != []
    ensures Dedup(s) != []
    ensures IsQuerySeparator(Dedup(s)[|Dedup(s)| - 1]) == IsQuerySeparator(s[|s| - 1])
  {
    if |s| > 1 {
      DedupLast(s[..|s| - 1]);
      assert s[..|s| - 1][|s| - 2] == s[|s| - 2];
    }
  }

  lemma {:induction false} DedupHasNoAdjacent(s: string)
    ensures NoAdjacentSeparators(Dedup(s))
  {
    if |s| > 1 {
      var p := s[..|s| - 1];
      DedupHasNoAdjacent(p);
      DedupLast(p);
      assert p[|p| - 1] == s[|s| - 2];
    }
  }

  lemma NonSeparatorsAppend(a: string, b: string)
    ensures NonSeparators(a + b) == NonSeparators(a) + NonSeparators(b)
    decreases |b|
  {
    if b != [] {
      assert (a + b)[..|a + b| - 1] == a + b[..|b| - 1];
      NonSeparatorsAppend(a, b[..|b| - 1]);
    } else {
      assert a + b == a;
    }
  }

  lemma NonSeparatorsSnoc(a: string, c: char)
    ensures NonSeparators(a + [c]) == NonSeparators(a) + (if IsQuerySeparator(c) then [] else [c])
  {
    assert (a + [c])[..|a|] == a;
  }

  lemma {:induction false} DedupKeepsNonSeparators(s: string)
    ensures NonSeparators(Dedup(s)) == NonSeparators(s)
  {
    if |s| > 1 {
      var p, last := s[..|s| - 1], s[|s| - 1];
      DedupKeepsNonSeparators(p);
      assert NonSeparators(s) == NonSeparators(p) + (if IsQuerySeparator(last) then [] else [last]);
      if !(IsQuerySeparator(s[|s| - 2]) && IsQuerySeparator(last)) {
        assert Dedup(s) == Dedup(p) + [last];
        NonSeparatorsSnoc(Dedup(p), last);
      } else {
        assert Dedup(s) == Dedup(p);
      }
    }
  }

  lemma PrefixKeepsNoAdjacent(s: string, p: string)
    requires NoAdjacentSeparators(s) && p <= s
    ensures NoAdjacentSeparators(p)
  {
    assert forall i :: 0 <= i < |p| ==> p[i] == s[i];
  }

  lemma {:induction false} TrimKeepsNonSeparators(s: string)
    ensures NonSeparators(TrimTrailingSeparators(s)) == NonSeparators(s)
  {
    if s != [] && IsQuerySeparator(s[|s| - 1]) {
      TrimKeepsNonSeparators(s[..|s| - 1]);
    }
  }

  lemma {:induction false} DedupOfNoAdjacent(s: string)
    requires NoAdjacentSeparators(s)
    ensures Dedup(s) == s
  {
    if |s| > 1 {
      var p := s[..|s| - 1];
      PrefixKeepsNoAdjacent(s, p);
      DedupOfNoAdjacent(p);
      assert !(IsQuerySeparator(s[|s| - 2]) && IsQuerySeparator(s[|s| - 1]));
      assert p + [s[|s| - 1]] == s;
    }
  }

  /** Cleaning twice is cleaning once. */
  lemma CleanIsIdempotent(s: string)
    ensures Clean(Clean(s)) == Clean(s)
  {
    var t := Clean(s);
    DedupOfNoAdjacent(t);
    assert TrimTrailingSeparators(t) == t;
  }

  /** A buffer that is already clean is unchanged. */
  lemma CleanOfClean(s: string)
    requires NoAdjacentSeparators(s) && !EndsWithSeparator(s)
    ensures Clean(s) == s
  {
    DedupOfNoAdjacent(s);
  }

  /** One step of the `retain` pass over a prefix. */
  lemma DedupStep(s: string, i: nat)
    requires i < |s|
    ensures Dedup(s[..i + 1]) == Dedup(s[..i]) + (if i > 0 && IsQuerySeparator(s[i - 1]) && IsQuerySeparator(s[i]) then [] else [s[i]])
  {
    var p := s[..i + 1];
    assert p[..i] == s[..i];
    if i > 0 {
      assert p[i - 1] == s[i - 1] && p[i] == s[i];
    }
  }

  /** One step of the `pop` loop. */
  lemma TrimStep(s: string)
    requires s != []
    ensures IsQuerySeparator(s[|s| - 1]) ==> TrimTrailingSeparators(s) == TrimTrailingSeparators(s[..|s| - 1])
    ensures !IsQuerySeparator(s[|s| - 1]) ==> TrimTrailingSeparators(s) == s
  {
  }

  /** `clean_query_parameters(buffer)`, the buffer passed in and returned. */
  method CleanQueryParameters(buffer: string) returns (out: string)
    ensures out == Clean(buffer)
  {
    // buffer.retain(..) with the `last_was_separator` flag
    var kept: string := [];
    var lastWasSeparator := false;
    for i := 0 to |buffer|
      invariant kept == Dedup(buffer[..i])
      invariant lastWasSeparator == (i > 0 && IsQuerySeparator(buffer[i - 1]))
    {
      DedupStep(buffer, i);
      if !(lastWasSeparator && IsQuerySeparator(buffer[i])) {
        kept := kept + [buffer[i]];
        lastWasSeparator := IsQuerySeparator(buffer[i]);
      }
    }
    assert buffer[..|buffer|] == buffer;
    // while let Some(last) = buffer.pop() { .. }
    out := kept;
    while out != []
      invariant TrimTrailingSeparators(out) == TrimTrailingSeparators(kept)
      decreases |out|
    {
      TrimStep(out);
      FrontAndLast(out);
      var last := out[|out| - 1];
      out := out[..|out| - 1];
      if !IsQuerySeparator(last) {
        out := out + [last];
        break;
      }
    }
  }

  // ---- Route selection ----

  /** A route the call may use: its name is `endpoint`, and its method is the `_method`
      argument when there is one. */
  predicate Eligible(route: Route, endpoint: string, args: Args) {
    ("_method" !in args || args["_method"] == Str(route.httpMethod)) && route.name == Some(endpoint)
  }

  /** The `filter` step. */
  function Candidates(routes: seq<Route>, endpoint: string, args: Args): (r: seq<Route>)
    ensures forall q :: q in r <==> q in routes && Eligible(q, endpoint, args)
    ensures |r| <= |routes|
  {
    if routes == [] then []
    else
      Candidates(routes[..|routes| - 1], endpoint, args)
      + (if Eligible(routes[|routes| - 1], endpoint, args) then [routes[|routes| - 1]] else [])
  }

  /** The filter keeps mount order: the candidates of `a + b` are those of `a`, then those
      of `b`. */
  lemma {:induction false} CandidatesKeepOrder(a: seq<Route>, b: seq<Route>, endpoint: string, args: Args)
    ensures Candidates(a + b, endpoint, args) == Candidates(a, endpoint, args) + Candidates(b, endpoint, args)
    decreases |b|
  {
    if b == [] {
      assert a + b == a;
    } else {
      var front := b[..|b| - 1];
      var last := b[|b| - 1];
      var tail := if Eligible(last, endpoint, args) then [last] else [];
      assert (a + b)[..|a + b| - 1] == a + front && (a + b)[|a + b| - 1] == last;
      CandidatesKeepOrder(a, front, endpoint, args);
      Associate(Candidates(a, endpoint, args), Candidates(front, endpoint, args), tail);
    }
  }

  /** The `fold` step: an earlier route is kept only when its rank is strictly larger. */
  function Fold(routes: seq<Route>): (r: Option<Route>)
    ensures r.None? <==> routes == []
  {
    if routes == [] then None
    else
      var best := Fold(routes[..|routes| - 1]);
      var next := routes[|routes| - 1];
      if best.Some? && best.value.rank > next.rank then best else Some(next)
  }

  /** The fold picks the last route of the largest rank. */
  lemma {:induction false} FoldPicksLastHighest(routes: seq<Route>) returns (j: nat)
    requires routes != []
    ensures j < |routes| && Fold(routes) == Some(routes[j])
    ensures forall k :: 0 <= k < |routes| ==> routes[k].rank <= routes[j].rank
    ensures forall k :: j < k < |routes| ==> routes[k].rank < routes[j].rank
  {
    var n := |routes|;
    var p := routes[..n - 1];
    if n == 1 {
      return 0;
    }
    var i := FoldPicksLastHighest(p);
    assert forall k :: 0 <= k < n - 1 ==> routes[k] == p[k];
    if p[i].rank > routes[n - 1].rank {
      j := i;
    } else {
      j := n - 1;
    }
  }

  lemma FoldOfCandidates(routes: seq<Route>, endpoint: string, args: Args)
    ensures var r := Fold(Candidates(routes, endpoint, args));
            && (r.None? <==> forall q :: q in routes ==> !Eligible(q, endpoint, args))
            && (r.Some? ==> r.value in routes && Eligible(r.value, endpoint, args))
            && (r.Some? ==> forall q :: q in routes && Eligible(q, endpoint, args) ==> q.rank <= r.value.rank)
            && (r.Some? ==> exists j :: LastOfItsRank(routes, endpoint, args, j, r.value))
  {
    FoldPicksLastEligible(routes, endpoint, args);
    var c := Candidates(routes, endpoint, args);
    if c != [] {
      assert c[0] in c;
      var j := FoldPicksLastHighest(c);
      forall q | q in routes && Eligible(q, endpoint, args)
        ensures q.rank <= c[j].rank
      {
        assert q in c;
        var k :| 0 <= k < |c| && c[k] == q;
      }
    }
  }

  /** `best` is at position `j` of `routes`, and every eligible route after it has a
      strictly smaller rank. */
  predicate LastOfItsRank(routes: seq<Route>, endpoint: string, args: Args, j: int, best: Route) {
    0 <= j < |routes| && routes[j] == best
    && forall k :: j < k < |routes| && Eligible(routes[k], endpoint, args) ==> routes[k].rank < best.rank
  }

  /** Ties go to the later route: the route found is the last eligible one of its rank. */
  lemma {:induction false} FoldPicksLastEligible(routes: seq<Route>, endpoint: string, args: Args)
    ensures var r := Fold(Candidates(routes, endpoint, args));
            r.Some? ==> exists j :: LastOfItsRank(routes, endpoint, args, j, r.value)
  {
    if routes != [] {
      var front := routes[..|routes| - 1];
      FoldPicksLastEligible(front, endpoint, args);
      LastRouteStep(routes, front, endpoint, args);
    }
  }

  /** The fold over one more route: the earlier winner stays last of its rank, or the new
      route wins. */
  lemma LastRouteStep(routes: seq<Route>, front: seq<Route>, endpoint: string, args: Args)
    requires routes != [] && front == routes[..|routes| - 1]
    requires var best := Fold(Candidates(front, endpoint, args));
             best.Some? ==> exists j :: LastOfItsRank(front, endpoint, args, j, best.value)
    ensures var r := Fold(Candidates(routes, endpoint, args));
            r.Some? ==> exists j :: LastOfItsRank(routes, endpoint, args, j, r.value)
  {
    var n := |routes|;
    var last := routes[n - 1];
    var c := Candidates(front, endpoint, args);
    var best := Fold(c);
    if Eligible(last, endpoint, args) {
      assert Candidates(routes, endpoint, args) == c + [last];
      FoldSnoc(c, last);
      if best.Some? && best.value.rank > last.rank {
        var j :| LastOfItsRank(front, endpoint, args, j, best.value);
        StillLastOfItsRank(routes, endpoint, args, j, best.value);
      } else {
        assert LastOfItsRank(routes, endpoint, args, n - 1, last);
      }
    } else {
      assert Candidates(routes, endpoint, args) == c + [] == c;
      if best.Some? {
        var j :| LastOfItsRank(front, endpoint, args, j, best.value);
        StillLastOfItsRank(routes, endpoint, args, j, best.value);
      }
    }
  }

  lemma FoldSnoc(c: seq<Route>, last: Route)
    ensures var best := Fold(c);
            Fold(c + [last]) == if best.Some? && best.value.rank > last.rank then best else Some(last)
  {
    assert (c + [last])[..|c|] == c;
  }

  /** One more route that is ineligible or of smaller rank keeps `best` last of its rank. */
  lemma StillLastOfItsRank(routes: seq<Route>, endpoint: string, args: Args, j: int, best: Route)
    requires routes != [] && LastOfItsRank(routes[..|routes| - 1], endpoint, args, j, best)
    requires Eligible(routes[|routes| - 1], endpoint, args) ==> routes[|routes| - 1].rank < best.rank
    ensures LastOfItsRank(routes, endpoint, args, j, best)
  {
    var front := routes[..|routes| - 1];
    forall k | j < k < |routes| && Eligible(routes[k], endpoint, args)
      ensures routes[k].rank < best.rank
    {
      if k < |front| {
        assert routes[k] == front[k];
      }
    }
  }

  /** The template function's configuration: the server's address, the scheme used when
      none is given, and the mounted routes in mount order. */
  datatype TemplateUrlLoader = TemplateUrlLoader(serverName: Option<string>, defaultScheme: string, routes: seq<Route>)
  {
    /** `find_route`: among the routes named `endpoint` (and using `_method`, when given),
        the one of largest rank, the later one on ties. */
    function FindRoute(endpoint: string, args: Args): (r: Option<Route>)
      ensures r.None? <==> forall q :: q in routes ==> !Eligible(q, endpoint, args)
      ensures r.Some? ==> r.value in routes && Eligible(r.value, endpoint, args)
      ensures r.Some? ==> forall q :: q in routes && Eligible(q, endpoint, args) ==> q.rank <= r.value.rank
      ensures r.Some? ==> exists j :: LastOfItsRank(routes, endpoint, args, j, r.value)
    {
      FoldOfCandidates(routes, endpoint, args);
      Fold(Candidates(routes, endpoint, args))
    }

    /** `write_path_parameters`: the buffer grows by the rendered path, or the first
        missing key is an error. */
    method WritePathParameters(buffer: string, route: Route, args: Args) returns (out: string, r: Result<(), UrlError>)
      ensures RenderPath(route.path, args).Ok? ==> r.Ok? && out == buffer + RenderPath(route.path, args).value
      ensures RenderPath(route.path, args).Err? ==> r == Err(MissingParameter(RenderPath(route.path, args).error, route.name))
    {
      out := buffer;
      var pathStr := route.path;
      while pathStr != []
        invariant Prefixed(buffer, RenderPath(route.path, args)) == Prefixed(out, RenderPath(pathStr, args))
        decreases |pathStr|
      {
        var parts := Placeholder(pathStr);
        PathStep(pathStr, args);
        if parts.None? {
          // the rest is literal: copy it and stop
          PrefixedStep(out, pathStr, Ok([]));
          assert pathStr + [] == pathStr;
          out := out + pathStr;
          pathStr := [];
          continue;
        }
        var prefix, key, suffix := parts.value.0, parts.value.1, parts.value.2;
        var shortKey := ShortKey(key);
        if shortKey !in args {
          // `out + prefix` is what the buffer holds when the error is returned
          return out + prefix, Err(MissingParameter(shortKey, route.name));
        }
        var text := PathText(args[shortKey]);
        PrefixedStep(out, prefix + text, RenderPath(suffix, args));
        Associate(out, prefix, text);
        out := out + prefix;
        pathStr := suffix;
        out := out + text;
      }
      return out, Ok(());
    }

    /** `write_query_parameters`: a route with a query adds `?` and the rendered query. */
    method WriteQueryParameters(buffer: string, route: Route, args: Args) returns (out: string)
      ensures route.query.None? ==> out == buffer
      ensures route.query.Some? ==> out == buffer + "?" + RenderQuery(route.query.value, args)
    {
      if route.query.None? {
        return buffer;
      }
      var queryStr := route.query.value;
      out := buffer + "?";
      while queryStr != []
        invariant buffer + "?" + RenderQuery(route.query.value, args) == out + RenderQuery(queryStr, args)
        decreases |queryStr|
      {
        var parts := Placeholder(queryStr);
        QueryStep(queryStr, args);
        if parts.None? {
          // the rest is literal: copy it and stop
          out := out + queryStr;
          queryStr := [];
        } else {
          var prefix, key, suffix := parts.value.0, parts.value.1, parts.value.2;
          var text := QueryText(key, args);
          Associate(out, prefix + text, RenderQuery(suffix, args));
          out := out + (prefix + text);
          queryStr := suffix;
        }
      }
    }

    /** `_external` is a boolean, and defaults to whether an address is configured. */
    function External(endpoint: string, args: Args): (r: Result<bool, UrlError>)
      ensures "_external" !in args ==> r == Ok(serverName.Some?)
      ensures "_external" in args ==> (r.Ok? <==> args["_external"].Bool?)
      ensures "_external" in args && args["_external"].Bool? ==> r == Ok(args["_external"].b)
    {
      if "_external" !in args then Ok(serverName.Some?)
      else if args["_external"].Bool? then Ok(args["_external"].b)
      else Err(ExternalNotBool(endpoint, args["_external"]))
    }

    /** The `scheme://host` an external URL starts with; the scheme is checked first. */
    function Origin(endpoint: string, args: Args): (r: Result<string, UrlError>)
      ensures r.Ok? <==> ("_scheme" !in args || args["_scheme"].Str?) && serverName.Some?
      ensures "_scheme" in args && !args["_scheme"].Str? ==> r == Err(SchemeNotString(endpoint, args["_scheme"]))
      ensures ("_scheme" !in args || args["_scheme"].Str?) && serverName.None? ==> r == Err(NoServerName)
      ensures r.Ok? ==> r.value == (if "_scheme" in args then args["_scheme"].s else defaultScheme) + "://" + serverName.value
    {
      if "_scheme" in args && !args["_scheme"].Str? then Err(SchemeNotString(endpoint, args["_scheme"]))
      else if serverName.None? then Err(NoServerName)
      else Ok((if "_scheme" in args then args["_scheme"].s else defaultScheme) + "://" + serverName.value)
    }

    /** What the endpoint contributes: the found route's path and query, or a relative
        endpoint (`.` contributing nothing). */
    function Target(endpoint: string, args: Args): (r: Result<string, UrlError>)
      ensures FindRoute(endpoint, args).None? && "." <= endpoint ==> r == Ok(if endpoint == "." then [] else endpoint)
      ensures FindRoute(endpoint, args).None? && !("." <= endpoint) ==> r == Err(NoRoute(endpoint))
      ensures FindRoute(endpoint, args).Some? ==> (r.Ok? <==> RenderPath(FindRoute(endpoint, args).value.path, args).Ok?)
    {
      match FindRoute(endpoint, args)
      case Some(route) =>
        (match RenderPath(route.path, args)
         case Err(k) => Err(MissingParameter(k, route.name))
         case Ok(p) => Ok(p + (if route.query.Some? then "?" + RenderQuery(route.query.value, args) else [])))
      case None =>
        if "." <= endpoint then Ok(if endpoint == "." then [] else endpoint)
        else Err(NoRoute(endpoint))
    }

    /** `url_for(..)`: the checks in the order the function makes them, then the cleaned
        buffer. */
    function UrlFor(args: Args): (r: Result<string, UrlError>)
      ensures "endpoint" !in args ==> r == Err(MissingEndpoint)
      ensures "endpoint" in args && !args["endpoint"].Str? ==> r == Err(EndpointNotString(args["endpoint"]))
      ensures r.Ok? ==> NoAdjacentSeparators(r.value) && !EndsWithSeparator(r.value)
    {
      if "endpoint" !in args then Err(MissingEndpoint)
      else if !args["endpoint"].Str? then Err(EndpointNotString(args["endpoint"]))
      else
        var endpoint := args["endpoint"].s;
        match External(endpoint, args)
        case Err(e) => Err(e)
        case Ok(external) =>
          match (if external then Origin(endpoint, args) else Ok([]))
          case Err(e) => Err(e)
          case Ok(origin) =>
            match Target(endpoint, args)
            case Err(e) => Err(e)
            case Ok(target) =>
              match Anchor(endpoint, args)
              case Err(e) => Err(e)
              case Ok(anchor) => Ok(Clean(origin + target + anchor))
    }

    /** The `find_route` match of `call`: the route's path and query, or the relative
        endpoint, appended to the buffer. */
    method WriteTarget(buffer: string, endpoint: string, args: Args) returns (out: string, r: Result<(), UrlError>)
      ensures Target(endpoint, args).Ok? ==> r.Ok? && out == buffer + Target(endpoint, args).value
      ensures Target(endpoint, args).Err? ==> r == Err(Target(endpoint, args).error)
    {
      var route := FindRoute(endpoint, args);
      if route.Some? {
        var written, pathResult := WritePathParameters(buffer, route.value, args);
        TargetOfRoute(endpoint, args, route.value);
        if pathResult.Err? {
          return written, Err(pathResult.error);
        }
        out := WriteQueryParameters(written, route.value, args);
        ghost var p := RenderPath(route.value.path, args).value;
        if route.value.query.Some? {
          ghost var rq := RenderQuery(route.value.query.value, args);
          Associate(buffer, p, "?" + rq);
          Associate(buffer + p, "?", rq);
        } else {
          assert p + [] == p;
        }
        return out, Ok(());
      } else if "." <= endpoint {
        out := buffer;
        if endpoint != "." {
          out := out + endpoint;
        }
        return out, Ok(());
      } else {
        return buffer, Err(NoRoute(endpoint));
      }
    }

    /** The target of a found route, in terms of its rendered path and query. */
    lemma TargetOfRoute(endpoint: string, args: Args, route: Route)
      requires FindRoute(endpoint, args) == Some(route)
      ensures RenderPath(route.path, args).Err? ==> Target(endpoint, args) == Err(MissingParameter(RenderPath(route.path, args).error, route.name))
      ensures RenderPath(route.path, args).Ok? ==> Target(endpoint, args) == Ok(RenderPath(route.path, args).value + (if route.query.Some? then "?" + RenderQuery(route.query.value, args) else []))
    {
    }

    /** `Function::call`: the buffer built step by step. */
    method Call(args: Args) returns (r: Result<string, UrlError>)
      ensures r == UrlFor(args)
    {
      if "endpoint" !in args {
        return Err(MissingEndpoint);
      }
      if !args["endpoint"].Str? {
        return Err(EndpointNotString(args["endpoint"]));
      }
      var endpoint := args["endpoint"].s;
      var external: bool;
      if "_external" in args {
        if !args["_external"].Bool? {
          return Err(ExternalNotBool(endpoint, args["_external"]));
        }
        external := args["_external"].b;
      } else {
        external := serverName.Some?;
      }
      var buffer: string := [];
      if external {
        var scheme: string;
        if "_scheme" in args {
          if !args["_scheme"].Str? {
            return Err(SchemeNotString(endpoint, args["_scheme"]));
          }
          scheme := args["_scheme"].s;
        } else {
          scheme := defaultScheme;
        }
        if serverName.None? {
          return Err(NoServerName);
        }
        buffer := buffer + scheme;
        buffer := buffer + "://";
        buffer := buffer + serverName.value;
      }
      ghost var origin := buffer;
      assert external ==> origin == Origin(endpoint, args).value;
      var targetResult;
      buffer, targetResult := WriteTarget(buffer, endpoint, args);
      if targetResult.Err? {
        return Err(targetResult.error);
      }
      ghost var target := Target(endpoint, args).value;
      if "_anchor" in args {
        if !args["_anchor"].Str? {
          return Err(AnchorNotString(endpoint, args["_anchor"]));
        }
        buffer := buffer + "#" + args["_anchor"].s;
      }
      assert buffer == origin + target + Anchor(endpoint, args).value;
      buffer := CleanQueryParameters(buffer);
      return Ok(buffer);
    }
  }

  /** `_anchor`, when given, is a string and is appended after `#`. */
  function Anchor(endpoint: string, args: Args): (r: Result<string, UrlError>)
    ensures "_anchor" !in args ==> r == Ok([])
    ensures "_anchor" in args && args["_anchor"].Str? ==> r == Ok("#" + args["_anchor"].s)
    ensures "_anchor" in args && !args["_anchor"].Str? ==> r == Err(AnchorNotString(endpoint, args["_anchor"]))
  {
    if "_anchor" !in args then Ok([])
    else if args["_anchor"].Str? then Ok("#" + args["_anchor"].s)
    else Err(AnchorNotString(endpoint, args["_anchor"]))
  }
}

/** The behaviour `url_for` promises, and the cases the unit tests of
    src/templates/url_for.rs pin down. */
module UrlForExamples {
  import opened Common
  import opened Strings
  import opened Ints
  import opened UrlFor

  // ---- General properties of `UrlFor` ----

  /** Without an `_external` argument the URL is external exactly when an address is
      configured, and then starts with `scheme://host`. */
  lemma ExternalByDefault(loader: TemplateUrlLoader, args: Args, endpoint: string)
    requires "endpoint" in args && args["endpoint"] == Str(endpoint)
    requires "_external" !in args && "_scheme" !in args && "_anchor" !in args
    requires loader.serverName.Some? && loader.Target(endpoint, args).Ok?
    ensures loader.UrlFor(args)
            == Ok(Clean(loader.defaultScheme + "://" + loader.serverName.value + loader.Target(endpoint, args).value))
  {
    assert loader.Origin(endpoint, args).value + loader.Target(endpoint, args).value + []
           == loader.defaultScheme + "://" + loader.serverName.value + loader.Target(endpoint, args).value;
  }

  /** An external URL needs an address. */
  lemma ExternalNeedsServerName(loader: TemplateUrlLoader, args: Args, endpoint: string)
    requires "endpoint" in args && args["endpoint"] == Str(endpoint)
    requires "_external" in args && args["_external"] == Bool(true) && "_scheme" !in args
    requires loader.serverName.None?
    ensures loader.UrlFor(args) == Err(NoServerName)
  {
  }

  /** An endpoint no route is named after is written as it is when it starts with `.`
      (and `.` alone writes nothing); any other such endpoint is an error. */
  lemma RelativeEndpoint(loader: TemplateUrlLoader, args: Args, endpoint: string)
    requires "endpoint" in args && args["endpoint"] == Str(endpoint)
    requires "_external" in args && args["_external"] == Bool(false) && "_anchor" !in args
    requires forall q :: q in loader.routes ==> q.name != Some(endpoint)
    ensures "." <= endpoint ==> loader.UrlFor(args) == Ok(Clean(if endpoint == "." then [] else endpoint))
    ensures !("." <= endpoint) ==> loader.UrlFor(args) == Err(NoRoute(endpoint))
  {
    assert loader.FindRoute(endpoint, args).None?;
    var t := if endpoint == "." then [] else endpoint;
    assert [] + t + [] == t;
  }

  /** A text without separators is already clean. */
  predicate Plain(s: string) {
    forall i :: 0 <= i < |s| ==> !IsQuerySeparator(s[i])
  }

  lemma PlainIsClean(s: string)
    requires Plain(s)
    ensures Clean(s) == s
  {
    CleanOfClean(s);
  }

  /** A clean text, one separator and a plain non-empty text make a clean text. */
  lemma JoinClean(a: string, c: char, b: string)
    requires NoAdjacentSeparators(a) && !EndsWithSeparator(a) && IsQuerySeparator(c)
    requires b != [] && Plain(b)
    ensures NoAdjacentSeparators(a + [c] + b) && !EndsWithSeparator(a + [c] + b)
  {
    var s := a + [c] + b;
    forall i | 0 < i < |s|
      ensures !(IsQuerySeparator(s[i - 1]) && IsQuerySeparator(s[i]))
    {
      if i < |a| {
        assert s[i - 1] == a[i - 1] && s[i] == a[i];
      } else if i == |a| {
        assert s[i - 1] == a[|a| - 1];
      } else {
        assert s[i] == b[i - |a| - 1];
      }
    }
    assert s[|s| - 1] == b[|b| - 1];
  }

  /** Appending text without separators commutes with the `retain` pass. */
  lemma {:induction false} DedupAppendPlain(s: string, t: string)
    requires Plain(t)
    ensures Dedup(s + t) == Dedup(s) + t
    decreases |t|
  {
    if t != [] {
      var u := s + t;
      assert u[..|u| - 1] == s + t[..|t| - 1];
      DedupAppendPlain(s, t[..|t| - 1]);
      if |u| > 1 {
        assert !IsQuerySeparator(u[|u| - 1]);
      } else {
        assert s == [] && u == t;
      }
      assert Dedup(s) + t[..|t| - 1] + [t[|t| - 1]] == Dedup(s) + t;
    } else {
      assert s + t == s;
    }
  }

  /** Two separators in a row between plain texts: the second is dropped. */
  lemma DoubleSeparatorCleaned(a: string, c1: char, c2: char, b: string)
    requires Plain(a) && a != [] && IsQuerySeparator(c1) && IsQuerySeparator(c2) && Plain(b) && b != []
    ensures Clean(a + [c1, c2] + b) == a + [c1] + b
  {
    DedupDoubleSeparator(a, c1, c2);
    DedupAppendPlain(a + [c1, c2], b);
    PlainEndTrimmed(a + [c1], b);
  }

  /** The `retain` pass over plain text and two separators keeps the first one. */
  lemma DedupDoubleSeparator(a: string, c1: char, c2: char)
    requires Plain(a) && a != [] && IsQuerySeparator(c1) && IsQuerySeparator(c2)
    ensures Dedup(a + [c1, c2]) == a + [c1]
  {
    var a1 := a + [c1];
    var a2 := a + [c1, c2];
    assert NoAdjacentSeparators(a);
    DedupOfNoAdjacent(a);
    assert a1[..|a1| - 1] == a && a1[|a1| - 2] == a[|a| - 1] && a1[|a1| - 1] == c1;
    assert Dedup(a1) == Dedup(a) + [c1];
    assert a2[..|a2| - 1] == a1 && a2[|a2| - 2] == c1 && a2[|a2| - 1] == c2;
    assert Dedup(a2) == Dedup(a1);
  }

  /** Text ending in a non-empty plain part has no trailing separator to trim. */
  lemma PlainEndTrimmed(t: string, b: string)
    requires Plain(b) && b != []
    ensures TrimTrailingSeparators(t + b) == t + b
  {
    assert (t + b)[|t + b| - 1] == b[|b| - 1];
  }

  /** The URL of a found route when the call is not external and has no anchor. */
  lemma LocalRouteUrl(loader: TemplateUrlLoader, args: Args, route: Route, path: string)
    requires route.name.Some? && "endpoint" in args && args["endpoint"] == Str(route.name.value)
    requires if "_external" in args then args["_external"] == Bool(false) else loader.serverName.None?
    requires "_anchor" !in args
    requires loader.FindRoute(route.name.value, args) == Some(route) && RenderPath(route.path, args) == Ok(path)
    ensures loader.UrlFor(args) == Ok(Clean(path + if route.query.Some? then "?" + RenderQuery(route.query.value, args) else []))
  {
    var t := path + if route.query.Some? then "?" + RenderQuery(route.query.value, args) else [];
    assert [] + t + [] == t;
  }

  // ---- The routes of the tests ----

  /** `#[get("/abc/<x>/foo?<y>")] fn test_route`, mounted at `/`. */
  const TestRoute: Route := Route(Some("test_route"), "GET", -6, "/abc/<x>/foo", Some("<y>"))
  /** `#[post("/abc/<x>/foo?<y>&<z>")] fn foo_post`, mounted at `/`. */
  const FooPost: Route := Route(Some("foo_post"), "POST", -6, "/abc/<x>/foo", Some("<y>&<z>"))
  /** `#[get("/foo")] fn foo_get`, mounted at `/bar`. */
  const FooGet: Route := Route(Some("foo_get"), "GET", -9, "/bar/foo", None)

  /** The loader of a configuration without (`None`) or with an address. */
  function TestLoader(serverName: Option<string>): TemplateUrlLoader {
    TemplateUrlLoader(serverName, "http", [TestRoute, FooPost, FooGet])
  }

  lemma FindsOnlyRoute(serverName: Option<string>, args: Args, route: Route)
    requires route in [TestRoute, FooPost, FooGet] && route.name.Some?
    requires "_method" !in args
    ensures TestLoader(serverName).FindRoute(route.name.value, args) == Some(route)
  {
    var r := TestLoader(serverName).FindRoute(route.name.value, args);
    assert Eligible(route, route.name.value, args);
    assert r.value.name == route.name;
  }

  // Facts about the literal texts of the tests, each proved on its own.

  lemma BarFooIsPlain()
    ensures '<' !in "/bar/foo" && Plain("/bar/foo")
  {
  }

  lemma TemplatePieces()
    ensures "/abc/<x>/foo" == "/abc/" + "<" + "x" + ">" + "/foo"
    ensures '<' !in "/abc/" && '>' !in "x" && '<' !in "/foo" && StripSuffix("x", "..").None?
  {
  }

  lemma XyzPieces()
    ensures "/abc/" + "xyz" + "/foo" == "/abc/xyz/foo"
    ensures Plain("/abc/xyz/foo")
  {
  }

  lemma TestRouteQueryPieces()
    ensures TestRoute.query.value == "<" + "y" + ">" && '>' !in "y"
  {
  }

  lemma FooPostQueryPieces()
    ensures FooPost.query.value == "<" + "y" + ">" + ("&" + "<" + "z" + ">")
    ensures '>' !in "y" && '<' !in "&" && '>' !in "z"
  {
  }

  /** The decimal texts of the numbers the tests pass. */
  lemma TestNumberDigits()
    ensures NatToString(123) == "123" && NatToString(456) == "456"
  {
  }

  lemma PlainNumbers()
    ensures Plain("y=123") && Plain("y=456") && Plain("z=123")
  {
  }

  lemma JoinedPieces()
    ensures "/abc/xyz/foo" + ("?" + "y=123") == "/abc/xyz/foo" + ['?'] + "y=123"
    ensures "/abc/xyz/foo" + ['?'] + "y=123" == "/abc/xyz/foo?y=123"
  {
  }

  lemma JoinedWithoutYPieces()
    ensures "/abc/xyz/foo" + ("?" + ("&" + "z=123")) == "/abc/xyz/foo" + ['?', '&'] + "z=123"
    ensures "/abc/xyz/foo" + ['?'] + "z=123" == "/abc/xyz/foo?z=123"
  {
  }

  lemma LongJoinedPieces()
    ensures "/abc/xyz/foo" + ("?" + ("y=456" + "&" + "z=123")) == "/abc/xyz/foo" + ['?'] + "y=456" + ['&'] + "z=123"
    ensures "/abc/xyz/foo" + ['?'] + "y=456" + ['&'] + "z=123" == "/abc/xyz/foo?y=456&z=123"
  {
  }

  lemma ExternalPieces()
    ensures "http" + "://" + "example.com" + "/bar/foo" == "http://example.com/bar/foo"
    ensures Plain("http://example.com/bar/foo")
  {
  }

  lemma XyzPath(args: Args)
    requires "x" in args && args["x"] == Str("xyz")
    ensures RenderPath(TestRoute.path, args) == Ok("/abc/xyz/foo")
  {
    TemplatePieces();
    PathPlaceholderReplaced("/abc/", "x", "/foo", args);
    XyzPieces();
  }

  lemma NumberText(n: nat, key: string, args: Args)
    requires key in args && args[key] == Num(n)
    ensures QueryText(key, args) == key + "=" + NatToString(n)
  {
  }

  lemma YIs123(args: Args)
    requires "y" in args && args["y"] == Num(123)
    ensures QueryText("y", args) == "y=123"
  {
    NumberText(123, "y", args);
    TestNumberDigits();
    assert "y" + "=" + "123" == "y=123";
  }

  lemma YIs456(args: Args)
    requires "y" in args && args["y"] == Num(456)
    ensures QueryText("y", args) == "y=456"
  {
    NumberText(456, "y", args);
    TestNumberDigits();
    assert "y" + "=" + "456" == "y=456";
  }

  lemma ZIs123(args: Args)
    requires "z" in args && args["z"] == Num(123)
    ensures QueryText("z", args) == "z=123"
  {
    NumberText(123, "z", args);
    TestNumberDigits();
    assert "z" + "=" + "123" == "z=123";
  }

  /** A query that is one placeholder. */
  lemma OnePlaceholderQuery(k: string, args: Args)
    requires '>' !in k
    ensures RenderQuery("<" + k + ">", args) == QueryText(k, args)
  {
    LeadingPlaceholderQuery(k, [], args);
    assert "<" + k + ">" + [] == "<" + k + ">";
    assert QueryText(k, args) + [] == QueryText(k, args);
  }

  /** A query of two placeholders with a separator between them. */
  lemma TwoPlaceholderQuery(k1: string, sep: string, k2: string, args: Args)
    requires '>' !in k1 && '<' !in sep && '>' !in k2
    ensures RenderQuery("<" + k1 + ">" + (sep + "<" + k2 + ">"), args) == QueryText(k1, args) + sep + QueryText(k2, args)
  {
    LeadingPlaceholderQuery(k1, sep + "<" + k2 + ">", args);
    TrailingPlaceholderQuery(sep, k2, args);
    Associate(QueryText(k1, args), sep, QueryText(k2, args));
  }

  lemma LeadingPlaceholderQuery(k: string, tail: string, args: Args)
    requires '>' !in k
    ensures RenderQuery("<" + k + ">" + tail, args) == QueryText(k, args) + RenderQuery(tail, args)
  {
    LeadingPlaceholder(k, tail);
    RenderLeadingPlaceholder("<" + k + ">" + tail, k, tail, args);
  }

  lemma LeadingPlaceholder(k: string, tail: string)
    requires '>' !in k
    ensures Placeholder("<" + k + ">" + tail) == Some(([], k, tail))
  {
    PlaceholderAt([], k, tail);
    EmptyPrefix("<");
  }

  lemma RenderLeadingPlaceholder(q: string, k: string, tail: string, args: Args)
    requires Placeholder(q) == Some(([], k, tail))
    ensures RenderQuery(q, args) == QueryText(k, args) + RenderQuery(tail, args)
  {
    assert q != [];
    QueryStep(q, args);
    EmptyPrefix(QueryText(k, args));
  }

  lemma TrailingPlaceholderQuery(sep: string, k: string, args: Args)
    requires '<' !in sep && '>' !in k
    ensures RenderQuery(sep + "<" + k + ">", args) == sep + QueryText(k, args)
  {
    assert sep + "<" + k + ">" == sep + "<" + k + ">" + [];
    QueryPlaceholderReplaced(sep, k, [], args);
    assert sep + QueryText(k, args) + [] == sep + QueryText(k, args);
  }

  /** Both routes at `/abc/<x>/foo`, with `x = "xyz"` and no address configured. */
  lemma XyzRouteUrl(args: Args, route: Route)
    requires route == TestRoute || route == FooPost
    requires "endpoint" in args && args["endpoint"] == Str(route.name.value)
    requires "_external" !in args && "_method" !in args && "_anchor" !in args
    requires "x" in args && args["x"] == Str("xyz")
    ensures TestLoader(None).UrlFor(args) == Ok(Clean("/abc/xyz/foo" + ("?" + RenderQuery(route.query.value, args))))
  {
    FindsOnlyRoute(None, args, route);
    XyzPath(args);
    LocalRouteUrl(TestLoader(None), args, route, "/abc/xyz/foo");
  }

  // ---- The tests ----

  /** `find_route`: `foo_get` is `/bar/foo`. */
  lemma FindRouteExample()
    ensures TestLoader(None).UrlFor(map["endpoint" := Str("foo_get")]) == Ok("/bar/foo")
  {
    var args := map["endpoint" := Str("foo_get")];
    FindsOnlyRoute(None, args, FooGet);
    BarFooIsPlain();
    LocalRouteUrl(TestLoader(None), args, FooGet, "/bar/foo");
    PlainIsClean("/bar/foo");
    assert "/bar/foo" + [] == "/bar/foo";
  }

  /** `attempt_replacement`: `x` goes into the path, `y` into the query. */
  lemma ReplacementExample()
    ensures TestLoader(None).UrlFor(map["endpoint" := Str("test_route"), "x" := Str("xyz"), "y" := Num(123)])
            == Ok("/abc/xyz/foo?y=123")
  {
    TestRouteWithY(map["endpoint" := Str("test_route"), "x" := Str("xyz"), "y" := Num(123)]);
  }

  lemma TestRouteWithY(args: Args)
    requires "endpoint" in args && args["endpoint"] == Str("test_route")
    requires "_external" !in args && "_method" !in args && "_anchor" !in args
    requires "x" in args && args["x"] == Str("xyz") && "y" in args && args["y"] == Num(123)
    ensures TestLoader(None).UrlFor(args) == Ok("/abc/xyz/foo?y=123")
  {
    XyzRouteUrl(args, TestRoute);
    TestRouteQueryWithY(args);
    CleanTestRouteUrl();
  }

  lemma TestRouteQueryWithY(args: Args)
    requires "y" in args && args["y"] == Num(123)
    ensures RenderQuery(TestRoute.query.value, args) == "y=123"
  {
    TestRouteQueryPieces();
    OnePlaceholderQuery("y", args);
    YIs123(args);
  }

  lemma CleanTestRouteUrl()
    ensures Clean("/abc/xyz/foo" + ("?" + "y=123")) == "/abc/xyz/foo?y=123"
  {
    XyzPieces();
    PlainNumbers();
    JoinedPieces();
    CleanOfClean("/abc/xyz/foo");
    JoinClean("/abc/xyz/foo", '?', "y=123");
    CleanOfClean("/abc/xyz/foo?y=123");
  }

  lemma FooPostWithoutY(args: Args)
    requires "endpoint" in args && args["endpoint"] == Str("foo_post")
    requires "_external" !in args && "_method" !in args && "_anchor" !in args
    requires "x" in args && args["x"] == Str("xyz")
    requires ("y" !in args || args["y"] == Null) && "z" in args && args["z"] == Num(123)
    ensures TestLoader(None).UrlFor(args) == Ok("/abc/xyz/foo?z=123")
  {
    XyzRouteUrl(args, FooPost);
    FooPostQueryWithoutY(args);
    CleanFooPostWithoutY();
  }

  lemma FooPostQueryWithoutY(args: Args)
    requires ("y" !in args || args["y"] == Null) && "z" in args && args["z"] == Num(123)
    ensures RenderQuery(FooPost.query.value, args) == "&" + "z=123"
  {
    FooPostQueryPieces();
    TwoPlaceholderQuery("y", "&", "z", args);
    QueryArgumentOmitted("y", args);
    ZIs123(args);
    EmptyPrefix("&");
  }

  lemma CleanFooPostWithoutY()
    ensures Clean("/abc/xyz/foo" + ("?" + ("&" + "z=123"))) == "/abc/xyz/foo?z=123"
  {
    XyzPieces();
    PlainNumbers();
    JoinedWithoutYPieces();
    DoubleSeparatorCleaned("/abc/xyz/foo", '?', '&', "z=123");
  }

  /** `attempt_replacement_with_optional`: a missing or null `y` leaves only `z`. */
  lemma OptionalAbsentExample()
    ensures TestLoader(None).UrlFor(map["endpoint" := Str("foo_post"), "x" := Str("xyz"), "z" := Num(123)])
            == Ok("/abc/xyz/foo?z=123")
  {
    FooPostWithoutY(map["endpoint" := Str("foo_post"), "x" := Str("xyz"), "z" := Num(123)]);
  }

  lemma OptionalNullExample()
    ensures TestLoader(None).UrlFor(map["endpoint" := Str("foo_post"), "x" := Str("xyz"), "z" := Num(123), "y" := Null])
            == Ok("/abc/xyz/foo?z=123")
  {
    FooPostWithoutY(map["endpoint" := Str("foo_post"), "x" := Str("xyz"), "z" := Num(123), "y" := Null]);
  }

  /** ... and a numeric `y` comes first, as in the route's query. */
  lemma OptionalPresentExample()
    ensures TestLoader(None).UrlFor(map["endpoint" := Str("foo_post"), "x" := Str("xyz"), "z" := Num(123), "y" := Num(456)])
            == Ok("/abc/xyz/foo?y=456&z=123")
  {
    FooPostWithY(map["endpoint" := Str("foo_post"), "x" := Str("xyz"), "z" := Num(123), "y" := Num(456)]);
  }

  lemma FooPostWithY(args: Args)
    requires "endpoint" in args && args["endpoint"] == Str("foo_post")
    requires "_external" !in args && "_method" !in args && "_anchor" !in args
    requires "x" in args && args["x"] == Str("xyz")
    requires "y" in args && args["y"] == Num(456) && "z" in args && args["z"] == Num(123)
    ensures TestLoader(None).UrlFor(args) == Ok("/abc/xyz/foo?y=456&z=123")
  {
    XyzRouteUrl(args, FooPost);
    FooPostQueryWithY(args);
    CleanFooPostUrl();
  }

  lemma FooPostQueryWithY(args: Args)
    requires "y" in args && args["y"] == Num(456) && "z" in args && args["z"] == Num(123)
    ensures RenderQuery(FooPost.query.value, args) == "y=456" + "&" + "z=123"
  {
    FooPostQueryPieces();
    TwoPlaceholderQuery("y", "&", "z", args);
    YIs456(args);
    ZIs123(args);
  }

  lemma CleanFooPostUrl()
    ensures Clean("/abc/xyz/foo" + ("?" + ("y=456" + "&" + "z=123"))) == "/abc/xyz/foo?y=456&z=123"
  {
    XyzPieces();
    PlainNumbers();
    LongJoinedPieces();
    CleanOfClean("/abc/xyz/foo");
    JoinClean("/abc/xyz/foo", '?', "y=456");
    JoinClean("/abc/xyz/foo" + ['?'] + "y=456", '&', "z=123");
    CleanOfClean("/abc/xyz/foo?y=456&z=123");
  }

  /** `attempt_external`: with an address the URL is external by default or on request,
      and relative with `_external` false. */
  lemma ExternalExamples()
    ensures TestLoader(Some("example.com")).UrlFor(map["endpoint" := Str("foo_get")])
            == Ok("http://example.com/bar/foo")
    ensures TestLoader(Some("example.com")).UrlFor(map["endpoint" := Str("foo_get"), "_external" := Bool(true)])
            == Ok("http://example.com/bar/foo")
    ensures TestLoader(Some("example.com")).UrlFor(map["endpoint" := Str("foo_get"), "_external" := Bool(false)])
            == Ok("/bar/foo")
  {
    ExternalDefaultExample();
    ExternalOnRequestExample();
    ExternalOffExample();
  }

  lemma ExternalDefaultExample()
    ensures TestLoader(Some("example.com")).UrlFor(map["endpoint" := Str("foo_get")]) == Ok("http://example.com/bar/foo")
  {
    ExternalBarFoo(map["endpoint" := Str("foo_get")]);
  }

  lemma ExternalOnRequestExample()
    ensures TestLoader(Some("example.com")).UrlFor(map["endpoint" := Str("foo_get"), "_external" := Bool(true)])
            == Ok("http://example.com/bar/foo")
  {
    ExternalBarFoo(map["endpoint" := Str("foo_get"), "_external" := Bool(true)]);
  }

  lemma ExternalBarFoo(args: Args)
    requires "endpoint" in args && args["endpoint"] == Str("foo_get")
    requires "_external" in args ==> args["_external"] == Bool(true)
    requires "_scheme" !in args && "_method" !in args && "_anchor" !in args
    ensures TestLoader(Some("example.com")).UrlFor(args) == Ok("http://example.com/bar/foo")
  {
    var loader := TestLoader(Some("example.com"));
    FindsOnlyRoute(Some("example.com"), args, FooGet);
    BarFooIsPlain();
    assert RenderPath(FooGet.path, args) == Ok("/bar/foo");
    assert "/bar/foo" + [] == "/bar/foo";
    assert loader.Target("foo_get", args) == Ok("/bar/foo");
    assert loader.Origin("foo_get", args) == Ok("http" + "://" + "example.com");
    ExternalPieces();
    assert loader.Origin("foo_get", args).value + "/bar/foo" + [] == "http://example.com/bar/foo";
    PlainIsClean("http://example.com/bar/foo");
    assert loader.UrlFor(args) == Ok(Clean("http://example.com/bar/foo"));
  }

  lemma ExternalOffExample()
    ensures TestLoader(Some("example.com")).UrlFor(map["endpoint" := Str("foo_get"), "_external" := Bool(false)])
            == Ok("/bar/foo")
  {
    LocalBarFoo(map["endpoint" := Str("foo_get"), "_external" := Bool(false)]);
  }

  lemma LocalBarFoo(args: Args)
    requires "endpoint" in args && args["endpoint"] == Str("foo_get")
    requires "_external" in args && args["_external"] == Bool(false)
    requires "_method" !in args && "_anchor" !in args
    ensures TestLoader(Some("example.com")).UrlFor(args) == Ok("/bar/foo")
  {
    FindsOnlyRoute(Some("example.com"), args, FooGet);
    BarFooIsPlain();
    assert RenderPath(FooGet.path, args) == Ok("/bar/foo");
    LocalRouteUrl(TestLoader(Some("example.com")), args, FooGet, "/bar/foo");
    PlainIsClean("/bar/foo");
    assert "/bar/foo" + [] == "/bar/foo";
  }
}
