/** Matching a request path against a prefix, and rewriting it, seen as operations on its '/'-separated segments. */
module PathRewrite {
  import opened Prelude

  datatype PathMatch = Exact(path: string) | Regex(pattern: string) | PathPrefix(prefix: string)
  datatype PathRedirect = Full(path: string) | Prefix(replacement: string)

  /** The path and query of a URI; the path is empty in a URI of authority form, which has neither. */
  datatype Uri = Uri(path: string, query: Option<string>)

  datatype Result = Ok(pathAndQuery: string) | InvalidUri | InvalidFilterConfiguration | SplitOutOfRange

  function Trim(s: string): (r: string)
    ensures r <= s && (r != [] ==> r[|r| - 1] != '/') && forall i :: |r| <= i < |s| ==> s[i] == '/'
  {
    if s != [] && s[|s| - 1] == '/' then Trim(s[..|s| - 1]) else s
  }

  predicate Bounded(p: string, q: string) {
    p <= q && (|q| == |p| || q[|p|] == '/')
  }

  /** The prefix arm of route selection: compare without trailing slashes, and end at a segment boundary. */
  predicate MatchesPrefix(prefix: string, path: string) {
    Bounded(Trim(prefix), Trim(path))
  }

  /** The segments of a string that starts with `c`, given those of the rest. */
  function Glue(c: char, rest: seq<string>): (r: seq<string>)
    requires rest != []
    ensures r != [] && (r[0] == [] <==> c == '/') && |r| == if c == '/' then |rest| + 1 else |rest|
  {
    if c == '/' then [[]] + rest else [[c] + rest[0]] + rest[1..]
  }

  function Split(s: string): (r: seq<string>)
    ensures r != []
  {
    if s == [] then [[]] else Glue(s[0], Split(s[1..]))
  }

  lemma GlueAppend(c: char, a: seq<string>, b: seq<string>)
    requires a != []
    ensures Glue(c, a + b) == Glue(c, a) + b
  {}

  lemma UngluePrefix(c: char, a: seq<string>, b: seq<string>)
    requires a != [] && b != [] && Glue(c, a) <= Glue(c, b)
    ensures a <= b
  {
    var g, h := Glue(c, a), Glue(c, b);
    assert g[0] == h[0] && g[1..] == h[1..][..|g| - 1];
    if c == '/' {
      assert a == g[1..] && b == h[1..];
    } else {
      assert a[0] == g[0][1..] && b[0] == h[0][1..];
      assert g[1..] == a[1..] && h[1..] == b[1..];
      assert a == [a[0]] + a[1..] && b == [b[0]] + b[1..];
    }
  }

  lemma GluePrefix(c: char, a: seq<string>, b: seq<string>)
    requires a != [] && b != []
    ensures Glue(c, a) <= Glue(c, b) <==> a <= b
  {
    if a <= b {
      assert b == a + b[|a|..];
      GlueAppend(c, a, b[|a|..]);
    }
    if Glue(c, a) <= Glue(c, b) { UngluePrefix(c, a, b); }
  }

  lemma GlueDiffers(c: char, d: char, a: seq<string>, b: seq<string>)
    requires c != d && a != [] && b != []
    ensures Glue(c, a)[0] != Glue(d, b)[0]
  {
    if c != '/' && d != '/' {
      assert Glue(c, a)[0][0] == c && Glue(d, b)[0][0] == d;
    }
  }

  lemma {:induction false} BoundedIffSegments(p: string, q: string)
    ensures Bounded(p, q) <==> Split(p) <= Split(q)
  {
    if p != [] && q != [] {
      var p', q' := p[1..], q[1..];
      hide Glue;
      if p[0] != q[0] {
        GlueDiffers(p[0], q[0], Split(p'), Split(q'));
      } else {
        BoundedIffSegments(p', q');
        GluePrefix(p[0], Split(p'), Split(q'));
        assert Bounded(p, q) <==> Bounded(p', q') by {
          assert p == [p[0]] + p' && q == [q[0]] + q';
        }
      }
    }
  }

  /** A path matches a prefix exactly if, trailing slashes aside, the prefix's segments begin the path's. */
  lemma MatchIffSegments(prefix: string, path: string)
    ensures MatchesPrefix(prefix, path) <==> Split(Trim(prefix)) <= Split(Trim(path))
  {
    BoundedIffSegments(Trim(prefix), Trim(path));
  }

  /** The path and query of a URI as they stand in it. */
  function PathAndQuery(u: Uri): string {
    if u.query.Some? then u.path + ['?'] + u.query.value else u.path
  }

  function Rewritten(replacement: string, rest: string): string {
    if rest != [] && rest[0] != '/' then replacement + ['/'] + rest else replacement + rest
  }

  /** The path a rewrite gives: the original without one, the new one if that is full, and otherwise the replacement
      followed by what is left of the original after the prefix, as if from the root. */
  ghost predicate RewrittenTo(rewrite: Option<PathRedirect>, pathMatch: PathMatch, orig: Uri, path: string) {
    match rewrite
    case None => path == orig.path
    case Some(Full(p)) => path == p
    case Some(Prefix(p)) =>
      pathMatch.PathPrefix? && |pathMatch.prefix| <= |orig.path| &&
      path == Rewritten(p, orig.path[|pathMatch.prefix|..])
  }

  method RewritePath(rewrite: Option<PathRedirect>, pathMatch: PathMatch, orig: Uri) returns (r: Result)
    ensures r.Ok? ==> exists path ::
      && r.pathAndQuery == (if orig.query.Some? then path + "?" + orig.query.value else path)
      && RewrittenTo(rewrite, pathMatch, orig, path)
    ensures r.InvalidUri? <==> rewrite.None? && orig.path == []
    ensures r.InvalidFilterConfiguration? <==> rewrite.Some? && rewrite.value.Prefix? && !pathMatch.PathPrefix?
    ensures r.SplitOutOfRange? <==>
      rewrite.Some? && rewrite.value.Prefix? && pathMatch.PathPrefix? && |pathMatch.prefix| > |orig.path|
  {
    if rewrite.None? {
      assert orig.query.Some? ==> orig.path + ['?'] + orig.query.value == orig.path + "?" + orig.query.value;
      assert RewrittenTo(rewrite, pathMatch, orig, orig.path);
      return if orig.path == [] then InvalidUri else Ok(PathAndQuery(orig));
    }
    var newPath;
    match rewrite.value {
      case Full(p) =>
        newPath := p;
      case Prefix(p) =>
        if !pathMatch.PathPrefix? {
          return InvalidFilterConfiguration;
        }
        newPath := p;
        if |pathMatch.prefix| > |orig.path| {
          return SplitOutOfRange;
        }
        var rest := orig.path[|pathMatch.prefix|..];
        if rest != [] && rest[0] != '/' {
          newPath := newPath + ['/'];
        }
        newPath := newPath + rest;
    }
    if orig.query.Some? {
      newPath := newPath + ['?'];
      newPath := newPath + orig.query.value;
    }
    r := Ok(newPath);
  }

  /** What the path of a request can be: empty in a URI of authority form, which is that of a CONNECT request, an
      asterisk, or a path from the root. */
  predicate RequestPath(path: string) {
    path == [] || path == "*" || path[0] == '/'
  }

  /** A prefix for which splitting a matched path can never go out of range: it has no trailing slash, or it matches no
      request path. */
  predicate Safe(prefix: string) {
    prefix == [] || prefix[|prefix| - 1] != '/' || (prefix[0] != '/' && Trim(prefix) != "*")
  }

  ghost predicate AlwaysInRange(prefix: string) {
    forall path :: RequestPath(path) && MatchesPrefix(prefix, path) ==> |prefix| <= |path|
  }

  lemma TrimTrimmed(p: string)
    requires p == [] || p[|p| - 1] != '/'
    ensures Trim(p) == p
  {}

  /** Rewriting stays in range on every matched request path exactly for the safe prefixes. */
  lemma InRangeIffSafe(prefix: string)
    ensures AlwaysInRange(prefix) <==> Safe(prefix)
  {
    var p := Trim(prefix);
    TrimTrimmed(p);
    if !Safe(prefix) {
      assert RequestPath(p) && MatchesPrefix(prefix, p) && |p| < |prefix|;
    } else if prefix != [] && prefix[|prefix| - 1] == '/' {
      assert p[0] == prefix[0];
      assert Trim("*") == "*";
    }
  }

  lemma RootTrimmed()
    ensures Trim("/") == []
  {
    assert "/"[..0] == [];
  }

  /** Over every path, whatever a request's can be: exactly if there is no trailing slash. */
  lemma EveryPathInRangeIff(prefix: string)
    ensures (forall path :: MatchesPrefix(prefix, path) ==> |prefix| <= |path|)
      <==> prefix == [] || prefix[|prefix| - 1] != '/'
  {
    TrimTrimmed(Trim(prefix));
    if prefix != [] && prefix[|prefix| - 1] == '/' {
      assert MatchesPrefix(prefix, Trim(prefix)) && |Trim(prefix)| < |prefix|;
    }
  }

  /** In particular a rewrite of the root prefix, which is the default match, goes out of range on the empty path of a
      CONNECT request, which it matches. */
  lemma RootOutOfRange()
    ensures RequestPath("") && MatchesPrefix("/", "") && |"/"| > |""|
  {
    RootTrimmed();
  }

  /** A path that matches a prefix without trailing slash is the prefix followed by nothing or by a slash. */
  lemma MatchedSplitsAtBoundary(prefix: string, path: string)
    requires prefix != [] && prefix[|prefix| - 1] != '/' && MatchesPrefix(prefix, path)
    ensures prefix <= path && (|path| == |prefix| || path[|prefix|] == '/')
  {}

  lemma {:induction false} SplitAtSlash(a: string, b: string)
    ensures Split(a + ['/'] + b) == Split(a) + Split(b)
  {
    var s := a + ['/'] + b;
    if a == [] {
      assert s == ['/'] + b && s[1..] == b;
    } else {
      SplitAtSlash(a[1..], b);
      assert s[1..] == a[1..] + ['/'] + b;
      hide Glue;
      GlueAppend(a[0], Split(a[1..]), Split(b));
    }
  }

  /** Rewriting a matched path replaces the prefix's segments by the replacement's and keeps the others, for a prefix
      without trailing slash. */
  lemma RewriteReplacesSegments(prefix: string, path: string, replacement: string)
    requires prefix != [] && prefix[|prefix| - 1] != '/' && MatchesPrefix(prefix, path)
    ensures |prefix| <= |path| && |Split(prefix)| <= |Split(path)|
    ensures Split(Rewritten(replacement, path[|prefix|..])) == Split(replacement) + Split(path)[|Split(prefix)|..]
  {
    MatchedSplitsAtBoundary(prefix, path);
    var rest := path[|prefix|..];
    if rest == [] {
      assert path == prefix && replacement + rest == replacement;
    } else {
      var tail := rest[1..];
      assert Rewritten(replacement, rest) == replacement + ['/'] + tail by { assert rest == ['/'] + tail; }
      assert path == prefix + ['/'] + tail;
      hide *;
      SplitAtSlash(prefix, tail);
      SplitAtSlash(replacement, tail);
    }
  }

  lemma RootReplaces(path: string, replacement: string)
    requires path != [] && path[0] == '/'
    ensures Split(path) == [[]] + Split(path[1..])
    ensures Split(Rewritten(replacement, path[1..])) ==
      if path == "/" then Split(replacement)
      else if path[1] == '/' then Split(replacement) + Split(path)[2..]
      else Split(replacement) + Split(path)[1..]
  {
    var rest := path[1..];
    if rest == [] {
      assert path == "/" && replacement + rest == replacement;
    } else if rest[0] == '/' {
      assert rest == ['/'] + rest[1..] && replacement + rest == replacement + ['/'] + rest[1..];
      SplitAtSlash(replacement, rest[1..]);
      assert Split(rest) == [[]] + Split(rest[1..]);
      assert Split(path)[2..] == Split(rest[1..]);
    } else {
      SplitAtSlash(replacement, rest);
    }
  }

  /** For the root prefix all segments after the first are kept; a second leading slash takes the place of the one that
      would have been inserted, and nothing is inserted if nothing is left. */
  lemma RewriteRootReplacesSegments(path: string, replacement: string)
    requires RequestPath(path)
    ensures MatchesPrefix("/", path) <==> path != "*"
    ensures |"/"| <= |path| && MatchesPrefix("/", path) ==>
      && Split(path) == [[]] + Split(path[1..])
      && Split(Rewritten(replacement, path[1..])) ==
         if path == "/" then Split(replacement)
         else if path[1] == '/' then Split(replacement) + Split(path)[2..]
         else Split(replacement) + Split(path)[1..]
  {
    RootTrimmed();
    if path != [] && path != "*" { RootReplaces(path, replacement); }
  }

  predicate Rewrites(prefix: string, path: string) {
    RequestPath(path) && MatchesPrefix(prefix, path) && |prefix| <= |path|
  }

  predicate Replaced(prefix: string, path: string, replacement: string)
    requires |prefix| <= |path|
  {
    var n := |Split(Trim(prefix))|;
    n <= |Split(path)| && Split(Rewritten(replacement, path[|prefix|..])) == Split(replacement) + Split(path)[n..]
  }

  /** Every matched request path on which a rewrite stays in range has exactly the prefix's segments replaced. */
  ghost predicate ReplacesSegments(prefix: string) {
    forall path, replacement :: Rewrites(prefix, path) ==> Replaced(prefix, path, replacement)
  }

  lemma EmptyReplaced(path: string, replacement: string)
    requires path == [] || path[0] == '/'
    ensures Replaced([], path, replacement)
  {
    assert path[|""|..] == path;
    if path == [] {
      assert replacement + path == replacement;
    } else {
      var tail := path[1..];
      assert path == [] + ['/'] + tail && replacement + path == replacement + ['/'] + tail;
      SplitAtSlash([], tail);
      SplitAtSlash(replacement, tail);
    }
  }

  /** Rewriting the prefix itself loses the segments after its trailing slashes. */
  lemma TrailingLost(prefix: string)
    requires prefix != [] && prefix[0] == '/' && prefix[|prefix| - 1] == '/'
    ensures Rewrites(prefix, prefix) && !Replaced(prefix, prefix, [])
  {
    var p := Trim(prefix);
    assert |p| < |prefix| by { assert p == prefix ==> p != []; }
    var tail := prefix[|p| + 1..];
    assert prefix == p + ['/'] + tail;
    SplitAtSlash(p, tail);
    assert prefix[|prefix|..] == [] && Rewritten([], []) == [];
  }

  /** It does exactly if the prefix is empty, or has no leading slash or no trailing one. */
  lemma ReplacesIff(prefix: string)
    ensures ReplacesSegments(prefix) <==> prefix == [] || prefix[0] != '/' || prefix[|prefix| - 1] != '/'
  {
    if prefix == [] {
      assert Trim("*") == "*";
      forall path, replacement | Rewrites(prefix, path) ensures Replaced(prefix, path, replacement) {
        EmptyReplaced(path, replacement);
      }
    } else if prefix[|prefix| - 1] != '/' {
      TrimTrimmed(prefix);
      forall path, replacement | Rewrites(prefix, path) ensures Replaced(prefix, path, replacement) {
        RewriteReplacesSegments(prefix, path, replacement);
      }
    } else if prefix[0] != '/' {
      assert Trim(prefix)[0] == prefix[0] && Trim("*") == "*";
    } else {
      TrailingLost(prefix);
    }
  }

  /** With several trailing slashes even characters of the path are lost. */
  lemma TrailingSlashesCorrupt()
    ensures Rewrites("/foo//", "/foo/bar") && Rewritten("/x", "/foo/bar"[|"/foo//"|..]) == "/x/ar"
  {
    assert "/foo//"[..5] == "/foo/" && "/foo/"[..4] == "/foo";
    assert Trim("/foo//") == Trim("/foo/") == Trim("/foo") == "/foo";
    assert Trim("/foo/bar") == "/foo/bar";
    assert "/foo/bar"[6..] == "ar" && "/x" + ['/'] + "ar" == "/x/ar";
  }
}
