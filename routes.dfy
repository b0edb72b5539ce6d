/** The route table the application derives from its page files: every key
    of the glob over the `./pages` directory is matched first against the pattern for dynamic
    pages (`<dir>/[<param>]…`) and then against the one for regular pages;
    each match becomes a route under the layout, keys matching neither are
    dropped, and a catch-all route comes last.  Both patterns are modelled as
    the backtracking search a regular expression engine performs. */
module Routes {
  import opened Common
  import opened Text

  const Prefix: string := "./pages/"
  const Ext: string := ".tsx"

  /** `lit` occurs in `s` at position `i`. */
  predicate At(s: string, i: nat, lit: string) {
    i + |lit| <= |s| && s[i..i + |lit|] == lit
  }

  /** From position `i` on, `s` is exactly `lit` (a literal followed by `$`). */
  predicate AtEnd(s: string, i: nat, lit: string) {
    i + |lit| == |s| && s[i..] == lit
  }

  /** Every character of `s[e..f]` matches `.`, which excludes line terminators. */
  predicate Dots(s: string, e: nat, f: nat)
    requires e <= f <= |s|
  {
    forall j :: e <= j < f ==> !IsLineTerminator(s[j])
  }

  /** The lazy groups `(.*?)` of the two patterns:
      regular `\.\/pages\/(.*?)\/?(index)?\.tsx$` has `RegularName`;
      dynamic `\.\/pages\/(.*?)\/\[(.*?)\](?:\/(.*?)(?:\/(.*?))?)?\.tsx$`
      has `RoutePath`, `ParamName`, `NestedPath` and `NestedParam`. */
  datatype Group = RegularName | RoutePath | ParamName | NestedPath | NestedParam

  function Rank(g: Group): nat {
    match g
    case RegularName => 0
    case NestedParam => 0
    case NestedPath => 1
    case ParamName => 2
    case RoutePath => 3
  }

  /** The part of the pattern after group `g` matches from position `f` to the end. */
  predicate Continues(g: Group, s: string, f: nat)
    requires f <= |s|
    decreases |s| - f, Rank(g), 0
  {
    match g
    case RegularName =>
      AtEnd(s, f, "/index.tsx") || AtEnd(s, f, "/.tsx") || AtEnd(s, f, "index.tsx") || AtEnd(s, f, ".tsx")
    case RoutePath =>
      At(s, f, "/[") && LazyEnd(ParamName, s, f + 2).Some?
    case ParamName =>
      At(s, f, "]") && ((At(s, f + 1, "/") && LazyEnd(NestedPath, s, f + 2).Some?) || AtEnd(s, f + 1, ".tsx"))
    case NestedPath =>
      (At(s, f, "/") && LazyEnd(NestedParam, s, f + 1).Some?) || AtEnd(s, f, ".tsx")
    case NestedParam =>
      AtEnd(s, f, ".tsx")
  }

  /** The lazy group `g` started at `e`: it takes as few characters as it can,
      so it ends at the first position from which the rest of the pattern
      matches, every character it takes matching `.` (see `LazyEndSpec`). */
  function LazyEnd(g: Group, s: string, e: nat): (r: Option<nat>)
    requires e <= |s|
    ensures r.Some? ==> e <= r.value <= |s|
    decreases |s| - e, Rank(g), 1
  {
    if Continues(g, s, e) then Some(e)
    else if e < |s| && !IsLineTerminator(s[e]) then LazyEnd(g, s, e + 1)
    else None
  }

  /** The lazy group ends at the first position where the rest matches, all
      characters before it matching `.`; it fails when there is no such position. */
  lemma {:induction false} LazyEndSpec(g: Group, s: string, e: nat)
    requires e <= |s|
    ensures LazyEnd(g, s, e).Some? ==>
      Dots(s, e, LazyEnd(g, s, e).value) && Continues(g, s, LazyEnd(g, s, e).value)
      && forall j :: e <= j < LazyEnd(g, s, e).value ==> !Continues(g, s, j)
    ensures LazyEnd(g, s, e).None? ==> forall f :: e <= f <= |s| && Dots(s, e, f) ==> !Continues(g, s, f)
    decreases |s| - e
  {
    if !Continues(g, s, e) && e < |s| && !IsLineTerminator(s[e]) {
      LazyEndSpec(g, s, e + 1);
      assert forall f :: e + 1 <= f <= |s| && Dots(s, e, f) ==> Dots(s, e + 1, f);
    }
  }

  /** The lazy group ends at `f` when the rest matches there and nowhere before. */
  lemma LazyEndAt(g: Group, s: string, e: nat, f: nat)
    requires e <= f <= |s| && Dots(s, e, f) && Continues(g, s, f)
    requires forall j :: e <= j < f ==> !Continues(g, s, j)
    ensures LazyEnd(g, s, e) == Some(f)
  {
    LazyEndSpec(g, s, e);
  }

  /** `./pages/` and then group `g` match from start position `p`. */
  predicate Hit(g: Group, s: string, p: nat) {
    p + |Prefix| <= |s| && At(s, p, Prefix) && LazyEnd(g, s, p + |Prefix|).Some?
  }

  /** The search `String.prototype.match` performs: the first start position
      from `p` on at which the pattern matches. */
  function Search(g: Group, s: string, p: nat): (r: Option<nat>)
    requires p <= |s|
    ensures r.Some? ==> p <= r.value && Hit(g, s, r.value)
    decreases |s| - p
  {
    if Hit(g, s, p) then Some(p)
    else if p < |s| then Search(g, s, p + 1)
    else None
  }

  /** The search finds the leftmost start position, and fails only when there is none. */
  lemma {:induction false} SearchSpec(g: Group, s: string, p: nat)
    requires p <= |s|
    ensures Search(g, s, p).None? <==> forall q :: p <= q <= |s| ==> !Hit(g, s, q)
    ensures Search(g, s, p).Some? ==> forall q :: p <= q < Search(g, s, p).value ==> !Hit(g, s, q)
    decreases |s| - p
  {
    if !Hit(g, s, p) && p < |s| {
      SearchSpec(g, s, p + 1);
    }
  }

  /** What the dynamic pattern captures; an unmatched group reads as `''`
      once the destructuring defaults apply. */
  datatype DynamicCaptures = DynamicCaptures(routePath: string, paramName: string,
                                             nestedPath: string, nestedParamName: string)

  /** The captures of the optional nested part that starts after `]` at `q`. */
  function NestedCaptures(s: string, q: nat): (string, string)
    requires q <= |s|
  {
    if At(s, q, "/") then
      match LazyEnd(NestedPath, s, q + 1)
      case Some(n) =>
        if At(s, n, "/") then
          match LazyEnd(NestedParam, s, n + 1)
          case Some(m) => (s[q + 1..n], s[n + 1..m])
          case None => (s[q + 1..n], "")
        else (s[q + 1..n], "")
      case None => ("", "")
    else ("", "")
  }

  /** `path.match(dynamic pattern)`. */
  function DynamicMatch(s: string): Option<DynamicCaptures> {
    match Search(RoutePath, s, 0)
    case None => None
    case Some(p) =>
      var k := p + |Prefix|;
      var d := LazyEnd(RoutePath, s, k).value;
      // the directory group ended where `/[` and the parameter group matched
      if d + 2 > |s| then None
      else
        match LazyEnd(ParamName, s, d + 2)
        case None => None
        case Some(q) =>
          if q + 1 > |s| then None
          else
            var (nested, nestedParam) := NestedCaptures(s, q + 1);
            Some(DynamicCaptures(s[k..d], s[d + 2..q], nested, nestedParam))
  }

  /** `path.match(regular pattern)`: the name group. */
  function RegularMatch(s: string): Option<string> {
    match Search(RegularName, s, 0)
    case None => None
    case Some(p) => Some(s[p + |Prefix|..LazyEnd(RegularName, s, p + |Prefix|).value])
  }

  /** The Suspense fallback a route shows while its page loads. */
  datatype Fallback = Spinner | OrdersTableSkeleton

  /** A route: its name, its path, the page key it loads and its fallback. */
  datatype Route = Route(name: string, path: string, page: string, fallback: Fallback)

  /** `suspenseFallbackMap.get(name) || undefined`: only the orders table has
      its own skeleton; everything else gets the default spinner. */
  function FallbackFor(lowerName: string): (f: Fallback)
    ensures f == OrdersTableSkeleton <==> lowerName == "admin/wb-orders"
  {
    if lowerName == "admin/wb-orders" then OrdersTableSkeleton else Spinner
  }

  /** The route of a dynamic page. */
  function DynamicRoute(c: DynamicCaptures, page: string): Route {
    var nested := if c.nestedPath == "index" then "" else c.nestedPath;
    var nestedParam := if c.nestedParamName != "" then ":" + c.nestedParamName else "";
    Route(c.routePath + "/" + c.paramName + (if nested != "" then "/" + nested + c.nestedParamName else ""),
          c.routePath + "/:" + c.paramName + (if nested != "" then "/" + nested + nestedParam else ""),
          page, Spinner)
  }

  /** The route of a regular page: the lower-cased name under `/`, `home` at `/` itself. */
  function RegularRoute(name: string, page: string): Route {
    var lower := Lower(name);
    Route(name, if lower == "home" then "/" else "/" + lower, page, FallbackFor(lower))
  }

  /** The route of one glob key, `None` (the source's `null`) when neither pattern matches. */
  function RouteOf(key: string): Option<Route> {
    match DynamicMatch(key)
    case Some(c) => Some(DynamicRoute(c, key))
    case None =>
      match RegularMatch(key)
      case Some(name) => Some(RegularRoute(name, key))
      case None => None
  }

  /** `routes.filter(route => route !== null)`, read as routes. */
  function Present(rs: seq<Option<Route>>): (r: seq<Route>)
    ensures |r| <= |rs|
    ensures forall x :: x in r <==> Some(x) in rs
    ensures (forall i :: 0 <= i < |rs| ==> rs[i].Some?) ==>
      |r| == |rs| && forall i :: 0 <= i < |rs| ==> r[i] == rs[i].value
  {
    if rs == [] then []
    else
      var rest := Present(rs[1..]);
      assert forall x :: Some(x) in rs <==> Some(x) == rs[0] || Some(x) in rs[1..];
      (if rs[0].Some? then [rs[0].value] else []) + rest
  }

  /** The routes of the glob keys, in key order, unmatched keys dropped. */
  function FilteredRoutes(keys: seq<string>): seq<Route> {
    Present(seq(|keys|, i requires 0 <= i < |keys| => RouteOf(keys[i])))
  }

  /** What a child of the layout route renders. */
  datatype Element = Page(page: string, fallback: Fallback) | NotFound

  datatype RouteEntry = RouteEntry(path: string, element: Element)

  /** The children of the layout route `/`: one per route, then `*`. */
  function LayoutChildren(keys: seq<string>): seq<RouteEntry> {
    var routes := FilteredRoutes(keys);
    seq(|routes|, i requires 0 <= i < |routes| => RouteEntry(routes[i].path, Page(routes[i].page, routes[i].fallback)))
      + [RouteEntry("*", NotFound)]
  }

  // ---------------------------------------------------------------------
  // Properties

  /** A key the glob can yield: a `.tsx` file under `./pages/`, no line terminator. */
  predicate GlobKey(s: string) {
    |s| >= |Prefix| + |Ext| && s[..|Prefix|] == Prefix && s[|s| - |Ext|..] == Ext && NoLineTerminator(s)
  }

  /** Every glob key matches the regular pattern, so no key of the glob is dropped. */
  lemma GlobKeyMatches(s: string)
    requires GlobKey(s)
    ensures RegularMatch(s).Some? && RouteOf(s).Some?
  {
    var f := |s| - |Ext|;
    assert AtEnd(s, f, ".tsx");
    assert Continues(RegularName, s, f);
    assert Dots(s, |Prefix|, f);
    assert At(s, 0, Prefix);
    LazyEndSpec(RegularName, s, |Prefix|);
    assert Hit(RegularName, s, 0);
  }

  /** With only glob keys, there is one route per key, in key order. */
  lemma AllGlobKeysRouted(keys: seq<string>)
    requires forall i :: 0 <= i < |keys| ==> GlobKey(keys[i])
    ensures |FilteredRoutes(keys)| == |keys|
    ensures forall i :: 0 <= i < |keys| ==> Some(FilteredRoutes(keys)[i]) == RouteOf(keys[i])
  {
    forall i | 0 <= i < |keys|
      ensures RouteOf(keys[i]).Some?
    {
      GlobKeyMatches(keys[i]);
    }
  }

  /** No page route has the path `*`: regular paths start with `/` and
      dynamic ones hold `/:`. */
  lemma RoutePathNotStar(key: string)
    requires RouteOf(key).Some?
    ensures RouteOf(key).value.path != "*"
  {
    var r := RouteOf(key).value;
    if DynamicMatch(key).None? {
      assert r.path[0] == '/';
    } else {
      var c := DynamicMatch(key).value;
      assert r.path[|c.routePath| + 1] == ':';
    }
  }

  /** The catch-all route is the last child and the only one with path `*`. */
  lemma CatchAllLast(keys: seq<string>)
    ensures var r := LayoutChildren(keys);
      |r| == |FilteredRoutes(keys)| + 1 && r[|r| - 1] == RouteEntry("*", NotFound)
      && forall i :: 0 <= i < |r| - 1 ==> r[i].path != "*" && r[i].element.Page?
  {
    var routes := FilteredRoutes(keys);
    var rs := seq(|keys|, i requires 0 <= i < |keys| => RouteOf(keys[i]));
    forall i | 0 <= i < |routes|
      ensures routes[i].path != "*"
    {
      assert routes[i] in routes;
      var j :| 0 <= j < |rs| && rs[j] == Some(routes[i]);
      RoutePathNotStar(keys[j]);
    }
  }


  // ---------------------------------------------------------------------
  // Positions in a key

  /** `At` splits along a concatenation. */
  lemma AtConcat(s: string, i: nat, u: string, v: string)
    ensures At(s, i, u + v) <==> At(s, i, u) && At(s, i + |u|, v)
  {
    if At(s, i, u) && At(s, i + |u|, v) {
      assert s[i..i + |u + v|] == s[i..i + |u|] + s[i + |u|..i + |u| + |v|];
    }
    if At(s, i, u + v) {
      var w := s[i..i + |u + v|];
      assert s[i..i + |u|] == w[..|u|] == u;
      assert s[i + |u|..i + |u| + |v|] == w[|u|..] == v;
    }
  }

  /** A literal that reaches the end of `s` is what `$` follows. */
  lemma AtIsAtEnd(s: string, i: nat, w: string)
    requires At(s, i, w) && i + |w| == |s|
    ensures AtEnd(s, i, w)
  {
  }

  lemma AtChar(s: string, i: nat, w: string, j: nat)
    requires At(s, i, w) && j < |w|
    ensures s[i + j] == w[j]
  {
    assert s[i..i + |w|][j] == s[i + j];
  }

  /** The first two characters of a literal found at `i`. */
  lemma AtHead(s: string, i: nat, w: string)
    requires |w| >= 2
    ensures At(s, i, w) ==> s[i] == w[0] && s[i + 1] == w[1]
  {
    if At(s, i, w) {
      AtChar(s, i, w, 0);
      AtChar(s, i, w, 1);
    }
  }

  lemma AtHeadOne(s: string, i: nat, w: string)
    requires |w| >= 1
    ensures At(s, i, w) ==> s[i] == w[0]
  {
    if At(s, i, w) {
      AtChar(s, i, w, 0);
    }
  }

  /** The characters of a literal free of line terminators found at `i` all match `.`. */
  lemma DotsOf(s: string, i: nat, w: string)
    requires At(s, i, w) && NoLineTerminator(w)
    ensures Dots(s, i, i + |w|)
  {
    forall j | i <= j < i + |w|
      ensures !IsLineTerminator(s[j])
    {
      AtChar(s, i, w, j - i);
    }
  }

  /** A part free of line terminators and of one character. */
  predicate PlainPart(w: string, avoid: char) {
    NoLineTerminator(w) && forall i :: 0 <= i < |w| ==> w[i] != avoid
  }

  /** The characters of a plain part found at `i`. */
  lemma PartChars(s: string, i: nat, w: string, avoid: char)
    requires At(s, i, w) && PlainPart(w, avoid)
    ensures Dots(s, i, i + |w|)
    ensures forall j :: i <= j < i + |w| ==> s[j] != avoid
  {
    forall j | i <= j < i + |w|
      ensures !IsLineTerminator(s[j]) && s[j] != avoid
    {
      AtChar(s, i, w, j - i);
    }
  }

  // ---------------------------------------------------------------------
  // Regular pages

  /** The name the regular pattern captures for `./pages/<stem>.tsx`: the lazy
      name stops before the longest of `/index`, `index` and `/` that ends the stem. */
  function RouteName(stem: string): (r: string)
    ensures |r| <= |stem| && r == stem[..|r|]
  {
    if EndsWith(stem, "/index") then stem[..|stem| - 6]
    else if EndsWith(stem, "index") then stem[..|stem| - 5]
    else if EndsWith(stem, "/") then stem[..|stem| - 1]
    else stem
  }

  /** The key of the page file with the given stem. */
  function Key(stem: string): string {
    Prefix + stem + Ext
  }

  /** The end of a key is `x.tsx` exactly when the stem ends with `x`. */
  lemma KeySuffix(stem: string, x: string)
    requires |x| <= |stem|
    ensures AtEnd(Key(stem), |Prefix| + |stem| - |x|, x + Ext) <==> EndsWith(stem, x)
  {
    var s := Key(stem);
    var t := stem[|stem| - |x|..];
    assert s[|Prefix| + |stem| - |x|..] == t + Ext;
    if t + Ext == x + Ext {
      assert t == (t + Ext)[..|x|] == (x + Ext)[..|x|] == x;
    }
  }

  /** A position of the key where the rest of the regular pattern matches is
      one of four, each tied to how the stem ends. */
  lemma RegularContinues(stem: string, j: nat)
    requires |Prefix| <= j <= |Key(stem)|
    ensures Continues(RegularName, Key(stem), j) <==>
      (j + 10 == |Key(stem)| && EndsWith(stem, "/index"))
      || (j + 5 == |Key(stem)| && EndsWith(stem, "/"))
      || (j + 9 == |Key(stem)| && EndsWith(stem, "index"))
      || (j + 4 == |Key(stem)|)
  {
    var s := Key(stem);
    if j + 10 == |s| { KeySuffix(stem, "/index"); }
    if j + 9 == |s| { KeySuffix(stem, "index"); }
    if j + 5 == |s| { KeySuffix(stem, "/"); }
    if j + 4 == |s| { KeySuffix(stem, ""); }
  }

  /** The lazy name group of a key's regular match ends before the part of
      the stem that `RouteName` drops. */
  lemma RegularNameEnd(stem: string)
    requires NoLineTerminator(stem)
    ensures LazyEnd(RegularName, Key(stem), |Prefix|) == Some(|Prefix| + |RouteName(stem)|)
  {
    var s := Key(stem);
    var f := |Prefix| + |RouteName(stem)|;
    assert s == Prefix + (stem + Ext);
    AtConcat(s, 0, Prefix, stem + Ext);
    AtConcat(s, |Prefix|, stem, Ext);
    DotsOf(s, |Prefix|, stem);
    RegularContinues(stem, f);
    forall j | |Prefix| <= j < f
      ensures !Continues(RegularName, s, j)
    {
      RegularContinues(stem, j);
    }
    LazyEndAt(RegularName, s, |Prefix|, f);
  }

  /** A match at the start captures the text up to the end of the name group. */
  lemma RegularMatchFrom(s: string, f: nat)
    requires |Prefix| <= f <= |s| && At(s, 0, Prefix) && LazyEnd(RegularName, s, |Prefix|) == Some(f)
    ensures RegularMatch(s) == Some(s[|Prefix|..f])
  {
    assert Hit(RegularName, s, 0);
  }

  /** The regular pattern captures `RouteName(stem)` for the key of any stem
      without line terminators. */
  lemma RegularMatchOfKey(stem: string)
    requires NoLineTerminator(stem)
    ensures RegularMatch(Key(stem)) == Some(RouteName(stem))
  {
    var s := Key(stem);
    var n := RouteName(stem);
    assert s == Prefix + (stem + Ext);
    AtConcat(s, 0, Prefix, stem + Ext);
    RegularNameEnd(stem);
    RegularMatchFrom(s, |Prefix| + |n|);
    assert s[|Prefix|..|Prefix| + |n|] == stem[..|n|];
  }

  /** A key with no `[` never matches the dynamic pattern. */
  lemma NoBracketNotDynamic(s: string)
    requires forall i :: 0 <= i < |s| ==> s[i] != '['
    ensures DynamicMatch(s).None?
  {
    forall q | 0 <= q <= |s|
      ensures !Hit(RoutePath, s, q)
    {
      if q + |Prefix| <= |s| {
        LazyEndSpec(RoutePath, s, q + |Prefix|);
        var r := LazyEnd(RoutePath, s, q + |Prefix|);
        if r.Some? {
          AtHead(s, r.value, "/[");
        }
      }
    }
  }

  /** Where the parts of `./pages/<stem>.tsx` sit. */
  lemma KeyLayout(stem: string)
    ensures At(Key(stem), 0, Prefix) && At(Key(stem), |Prefix|, stem)
    ensures AtEnd(Key(stem), |Prefix| + |stem|, Ext)
  {
    var s := Key(stem);
    assert s == Prefix + (stem + Ext);
    AtConcat(s, 0, Prefix, stem + Ext);
    AtConcat(s, |Prefix|, stem, Ext);
  }

  /** A character that neither the stem nor `.tsx` holds is absent from the
      key after `./pages/`. */
  lemma KeyTailAvoids(s: string, stem: string, c: char)
    requires At(s, |Prefix|, stem) && AtEnd(s, |Prefix| + |stem|, Ext) && PlainPart(stem, c)
    requires c != '.' && c != 't' && c != 's' && c != 'x'
    ensures forall i :: |Prefix| <= i < |s| ==> s[i] != c
  {
    PartChars(s, |Prefix|, stem, c);
    forall j | |Prefix| + |stem| <= j < |s|
      ensures s[j] != c
    {
      AtChar(s, |Prefix| + |stem|, Ext, j - |Prefix| - |stem|);
    }
  }

  /** A page whose stem has no `[` gets the lower-cased captured name as its
      path, `/` for `home`, and the orders skeleton for `admin/wb-orders`. */
  lemma RegularPageRoute(stem: string)
    requires PlainPart(stem, '[')
    ensures RouteOf(Key(stem)) == Some(RegularRoute(RouteName(stem), Key(stem)))
  {
    var s := Key(stem);
    KeyLayout(stem);
    KeyTailAvoids(s, stem, '[');
    forall i | 0 <= i < |Prefix|
      ensures s[i] != '['
    {
      AtChar(s, 0, Prefix, i);
    }
    NoBracketNotDynamic(s);
    RegularMatchOfKey(stem);
  }

  /** The path a regular page with that captured name is served at. */
  function PagePath(name: string): string {
    if Lower(name) == "home" then "/" else "/" + Lower(name)
  }

  /** The name `RouteName` keeps of a stem ending in `index`. */
  lemma RouteNameOfIndex(base: string)
    ensures RouteName(base + "index") == if EndsWith(base, "/") then base[..|base| - 1] else base
  {
    var stem := base + "index";
    assert stem[|stem| - 5..] == "index";
    if EndsWith(base, "/") {
      assert stem[|stem| - 6..] == "/index";
      assert stem[..|stem| - 6] == base[..|base| - 1];
    } else {
      if |stem| >= 6 {
        assert stem[|stem| - 6..] == [base[|base| - 1]] + "index";
      }
      assert stem[..|stem| - 5] == base;
    }
  }

  /** A stem ending in `index` loses it, with the `/` before it if there is
      one: `admin/index` is served at `/admin`, and `reindex` at `/re`. */
  lemma TrailingIndexDropped(base: string)
    requires PlainPart(base, '[')
    ensures RouteOf(Key(base + "index")).Some?
    ensures RouteOf(Key(base + "index")).value.path
      == PagePath(if EndsWith(base, "/") then base[..|base| - 1] else base)
  {
    var stem := base + "index";
    assert PlainPart(stem, '[') by {
      assert forall i :: |base| <= i < |stem| ==> stem[i] == "index"[i - |base|];
    }
    RegularPageRoute(stem);
    RouteNameOfIndex(base);
  }

  /** A stem without `index`/`/` at its end keeps its whole name: the orders
      page `admin/wb-orders` is served at `/admin/wb-orders` behind the table
      skeleton, a page `Home` at `/`. */
  lemma PlainStemRoute(stem: string)
    requires PlainPart(stem, '[')
    requires !EndsWith(stem, "index") && !EndsWith(stem, "/")
    ensures RouteOf(Key(stem)).Some?
    ensures RouteOf(Key(stem)).value.path == PagePath(stem)
    ensures RouteOf(Key(stem)).value.fallback == FallbackFor(Lower(stem))
  {
    RegularPageRoute(stem);
    IndexSuffixes(stem);
  }

  lemma IndexSuffixes(stem: string)
    ensures EndsWith(stem, "/index") ==> EndsWith(stem, "index")
  {
    if EndsWith(stem, "/index") {
      assert stem[|stem| - 5..] == stem[|stem| - 6..][1..];
    }
  }

  // ---------------------------------------------------------------------
  // Dynamic pages

  /** The key of a dynamic page `./pages/<dir>/[<param>]<rest>`. */
  function DynamicKey(dir: string, param: string, rest: string): string {
    Prefix + dir + "/[" + param + "]" + rest
  }

  /** Where the parts of a dynamic key sit. */
  lemma DynamicLayout(dir: string, param: string, rest: string)
    ensures var s := DynamicKey(dir, param, rest);
      var d := |Prefix| + |dir|;
      var q := d + 2 + |param|;
      && At(s, 0, Prefix) && At(s, |Prefix|, dir) && At(s, d, "/[") && At(s, d + 2, param)
      && At(s, q, "]") && At(s, q + 1, rest) && q + 1 + |rest| == |s|
  {
    var s := DynamicKey(dir, param, rest);
    var d := |Prefix| + |dir|;
    assert s == Prefix + (dir + ("/[" + (param + ("]" + rest))));
    AtConcat(s, 0, Prefix, dir + ("/[" + (param + ("]" + rest))));
    AtConcat(s, |Prefix|, dir, "/[" + (param + ("]" + rest)));
    AtConcat(s, d, "/[", param + ("]" + rest));
    AtConcat(s, d + 2, param, "]" + rest);
    AtConcat(s, d + 2 + |param|, "]", rest);
  }

  /** After `]` at `q` comes `/` and a nested part that matches. */
  lemma ParamThenNested(s: string, q: nat, n: nat)
    requires q + 2 <= |s| && At(s, q, "]") && At(s, q + 1, "/") && LazyEnd(NestedPath, s, q + 2) == Some(n)
    ensures Continues(ParamName, s, q)
  {
  }

  /** After `]` at `q` comes `.tsx` and the end. */
  lemma ParamThenExt(s: string, q: nat)
    requires q + 1 <= |s| && At(s, q, "]") && AtEnd(s, q + 1, Ext)
    ensures Continues(ParamName, s, q)
  {
  }

  /** After the nested path at `n` comes `.tsx` and the end. */
  lemma NestedThenExt(s: string, n: nat)
    requires n <= |s| && AtEnd(s, n, Ext)
    ensures Continues(NestedPath, s, n)
  {
  }

  /** After the nested path at `n` comes `/` and a nested parameter that matches. */
  lemma NestedThenParam(s: string, n: nat, m: nat)
    requires n + 1 <= |s| && At(s, n, "/") && LazyEnd(NestedParam, s, n + 1) == Some(m)
    ensures Continues(NestedPath, s, n)
  {
  }

  /** No position inside a nested part free of `/` lets the rest match, except
      `.tsx` at the very end. */
  lemma NestedPathEnd(s: string, e: nat, n: nat, nested: string)
    requires e + |nested| == n <= |s| && At(s, e, nested) && PlainPart(nested, '/')
    requires n + |Ext| <= |s| && Continues(NestedPath, s, n)
    ensures LazyEnd(NestedPath, s, e) == Some(n)
  {
    PartChars(s, e, nested, '/');
    forall j | e <= j < n
      ensures !Continues(NestedPath, s, j)
    {
      AtHeadOne(s, j, "/");
    }
    LazyEndAt(NestedPath, s, e, n);
  }

  /** The parameter ends at the first `]` after which the rest matches; with
      no `]` inside the parameter, that is the one right after it. */
  lemma ParamEnd(s: string, e: nat, q: nat)
    requires e <= q < |s| && Dots(s, e, q) && Continues(ParamName, s, q)
    requires forall j :: e <= j < q ==> s[j] != ']'
    ensures LazyEnd(ParamName, s, e) == Some(q)
  {
    forall j | e <= j < q
      ensures !Continues(ParamName, s, j)
    {
      AtHeadOne(s, j, "]");
    }
    LazyEndAt(ParamName, s, e, q);
  }

  /** On a key laid out as `./pages/<dir>/[<param>]` followed by a rest that
      lets the parameter group stop at `q`, the match starts at `0`, the
      directory group ends before the first `/[` and the parameter group at `q`. */
  lemma DynamicStart(s: string, dir: string, param: string, q: nat)
    requires PlainPart(dir, '[') && PlainPart(param, ']')
    requires q == |Prefix| + |dir| + 2 + |param| && q < |s|
    requires At(s, 0, Prefix) && At(s, |Prefix|, dir)
    requires At(s, |Prefix| + |dir|, "/[") && At(s, |Prefix| + |dir| + 2, param)
    requires Continues(ParamName, s, q)
    ensures DynamicMatch(s) ==
      Some(DynamicCaptures(dir, param, NestedCaptures(s, q + 1).0, NestedCaptures(s, q + 1).1))
  {
    var d := |Prefix| + |dir|;
    PartChars(s, d + 2, param, ']');
    ParamEnd(s, d + 2, q);
    assert Continues(RoutePath, s, d);
    DirEnd(s, dir);
    assert Hit(RoutePath, s, 0);
    DynamicMatchOf(s, d, q);
  }

  /** The directory group ends at the first `/[` after which the rest
      matches; with no `[` inside the directory, that is the one right after it. */
  lemma DirEnd(s: string, dir: string)
    requires At(s, |Prefix|, dir) && PlainPart(dir, '[')
    requires |Prefix| + |dir| <= |s| && Continues(RoutePath, s, |Prefix| + |dir|)
    ensures LazyEnd(RoutePath, s, |Prefix|) == Some(|Prefix| + |dir|)
  {
    var d := |Prefix| + |dir|;
    PartChars(s, |Prefix|, dir, '[');
    forall j | |Prefix| <= j < d
      ensures !Continues(RoutePath, s, j)
    {
      AtHead(s, j, "/[");
    }
    LazyEndAt(RoutePath, s, |Prefix|, d);
  }

  /** The captures, once the ends of the first two groups are known. */
  lemma DynamicMatchOf(s: string, d: nat, q: nat)
    requires |Prefix| <= |s| && d + 2 <= |s|
    requires Search(RoutePath, s, 0) == Some(0)
    requires LazyEnd(RoutePath, s, |Prefix|) == Some(d)
    requires LazyEnd(ParamName, s, d + 2) == Some(q) && q < |s|
    ensures DynamicMatch(s) == Some(DynamicCaptures(s[|Prefix|..d], s[d + 2..q],
                                                    NestedCaptures(s, q + 1).0, NestedCaptures(s, q + 1).1))
  {
  }

  /** A dynamic match gives the dynamic route. */
  lemma RouteOfDynamic(s: string, c: DynamicCaptures)
    requires DynamicMatch(s) == Some(c)
    ensures RouteOf(s) == Some(DynamicRoute(c, s))
  {
  }

  lemma NoNested(s: string, q: nat)
    requires q <= |s| && !At(s, q, "/")
    ensures NestedCaptures(s, q) == ("", "")
  {
  }

  lemma NestedOnly(s: string, q: nat, n: nat)
    requires q < |s| && At(s, q, "/") && LazyEnd(NestedPath, s, q + 1) == Some(n) && !At(s, n, "/")
    ensures NestedCaptures(s, q) == (s[q + 1..n], "")
  {
  }

  lemma NestedBoth(s: string, q: nat, n: nat, m: nat)
    requires q < |s| && At(s, q, "/") && LazyEnd(NestedPath, s, q + 1) == Some(n)
    requires n < |s| && At(s, n, "/") && LazyEnd(NestedParam, s, n + 1) == Some(m)
    ensures NestedCaptures(s, q) == (s[q + 1..n], s[n + 1..m])
  {
  }

  /** `./pages/<dir>/[<param>].tsx` captures the directory and the parameter,
      and its route is `<dir>/:<param>`, with no leading `/`. */
  lemma DynamicPageRoute(dir: string, param: string)
    requires PlainPart(dir, '[') && PlainPart(param, ']')
    ensures DynamicMatch(DynamicKey(dir, param, Ext)) == Some(DynamicCaptures(dir, param, "", ""))
    ensures RouteOf(DynamicKey(dir, param, Ext)) ==
      Some(Route(dir + "/" + param, dir + "/:" + param, DynamicKey(dir, param, Ext), Spinner))
  {
    var s := DynamicKey(dir, param, Ext);
    var q := |Prefix| + |dir| + 2 + |param|;
    DynamicLayout(dir, param, Ext);
    AtIsAtEnd(s, q + 1, Ext);
    AtHeadOne(s, q + 1, "/");
    ParamThenExt(s, q);
    NoNested(s, q + 1);
    DynamicStart(s, dir, param, q);
    RouteOfDynamic(s, DynamicCaptures(dir, param, "", ""));
    DynamicRouteUnnested(dir, param, s);
  }

  lemma DynamicRouteUnnested(dir: string, param: string, page: string)
    ensures DynamicRoute(DynamicCaptures(dir, param, "", ""), page)
      == Route(dir + "/" + param, dir + "/:" + param, page, Spinner)
  {
    assert dir + "/" + param + "" == dir + "/" + param;
    assert dir + "/:" + param + "" == dir + "/:" + param;
  }

  /** Where the parts of `./pages/<dir>/[<param>]/<nested>.tsx` sit. */
  lemma NestedLayout(dir: string, param: string, nested: string)
    ensures var s := DynamicKey(dir, param, "/" + nested + Ext);
      var q := |Prefix| + |dir| + 2 + |param|;
      && At(s, 0, Prefix) && At(s, |Prefix|, dir)
      && At(s, |Prefix| + |dir|, "/[") && At(s, |Prefix| + |dir| + 2, param)
      && At(s, q, "]") && At(s, q + 1, "/") && At(s, q + 2, nested)
      && AtEnd(s, q + 2 + |nested|, Ext)
  {
    var rest := "/" + nested + Ext;
    var s := DynamicKey(dir, param, rest);
    var q := |Prefix| + |dir| + 2 + |param|;
    DynamicLayout(dir, param, rest);
    AtConcat(s, q + 1, "/", nested + Ext);
    AtConcat(s, q + 2, nested, Ext);
    AtIsAtEnd(s, q + 2 + |nested|, Ext);
  }

  /** The captures of a key laid out as `./pages/<dir>/[<param>]/<nested>.tsx`. */
  lemma NestedMatch(s: string, dir: string, param: string, nested: string)
    requires PlainPart(dir, '[') && PlainPart(param, ']') && PlainPart(nested, '/')
    requires var q := |Prefix| + |dir| + 2 + |param|;
      && q + 2 + |nested| <= |s|
      && At(s, 0, Prefix) && At(s, |Prefix|, dir)
      && At(s, |Prefix| + |dir|, "/[") && At(s, |Prefix| + |dir| + 2, param)
      && At(s, q, "]") && At(s, q + 1, "/") && At(s, q + 2, nested)
      && AtEnd(s, q + 2 + |nested|, Ext)
    ensures DynamicMatch(s) == Some(DynamicCaptures(dir, param, nested, ""))
  {
    var q := |Prefix| + |dir| + 2 + |param|;
    NestedTail(s, q, nested);
    DynamicStart(s, dir, param, q);
  }

  /** A `]` followed by `/<nested>.tsx` at the end: the parameter group may
      stop there and the nested groups capture `nested` and nothing. */
  lemma NestedTail(s: string, q: nat, nested: string)
    requires q + 2 + |nested| <= |s| && PlainPart(nested, '/')
    requires At(s, q, "]") && At(s, q + 1, "/") && At(s, q + 2, nested)
    requires AtEnd(s, q + 2 + |nested|, Ext)
    ensures Continues(ParamName, s, q)
    ensures NestedCaptures(s, q + 1) == (nested, "")
  {
    var n := q + 2 + |nested|;
    AtHeadOne(s, n, "/");
    NestedThenExt(s, n);
    NestedPathEnd(s, q + 2, n, nested);
    ParamThenNested(s, q, n);
    NestedOnly(s, q + 1, n);
  }

  /** `./pages/<dir>/[<param>]/<nested>.tsx` (no `/` in the nested part) gives
      `<dir>/:<param>/<nested>`; a nested `index` is dropped. */
  lemma NestedPageRoute(dir: string, param: string, nested: string)
    requires PlainPart(dir, '[') && PlainPart(param, ']') && PlainPart(nested, '/')
    ensures DynamicMatch(DynamicKey(dir, param, "/" + nested + Ext))
      == Some(DynamicCaptures(dir, param, nested, ""))
    ensures RouteOf(DynamicKey(dir, param, "/" + nested + Ext)).Some?
    ensures RouteOf(DynamicKey(dir, param, "/" + nested + Ext)).value.path
      == dir + "/:" + param + (if nested == "index" || nested == "" then "" else "/" + nested)
  {
    var s := DynamicKey(dir, param, "/" + nested + Ext);
    NestedLayout(dir, param, nested);
    NestedMatch(s, dir, param, nested);
    RouteOfDynamic(s, DynamicCaptures(dir, param, nested, ""));
    DynamicRoutePath(dir, param, nested, "", s);
  }

  /** Where the parts of `./pages/<dir>/[<param>]/<nested>/<nestedParam>.tsx` sit. */
  lemma NestedParamLayout(dir: string, param: string, nested: string, nestedParam: string)
    ensures var s := DynamicKey(dir, param, "/" + nested + "/" + nestedParam + Ext);
      var q := |Prefix| + |dir| + 2 + |param|;
      var n := q + 2 + |nested|;
      && At(s, 0, Prefix) && At(s, |Prefix|, dir)
      && At(s, |Prefix| + |dir|, "/[") && At(s, |Prefix| + |dir| + 2, param)
      && At(s, q, "]") && At(s, q + 1, "/") && At(s, q + 2, nested)
      && At(s, n, "/") && At(s, n + 1, nestedParam) && AtEnd(s, n + 1 + |nestedParam|, Ext)
  {
    var rest := "/" + nested + "/" + nestedParam + Ext;
    var s := DynamicKey(dir, param, rest);
    DynamicLayout(dir, param, rest);
    TwoSegmentRest(s, |Prefix| + |dir| + 3 + |param|, nested, nestedParam);
  }

  /** The parts of a rest `/<nested>/<nestedParam>.tsx` that ends the string. */
  lemma TwoSegmentRest(s: string, i: nat, nested: string, nestedParam: string)
    requires At(s, i, "/" + nested + "/" + nestedParam + Ext)
    requires i + 2 + |nested| + |nestedParam| + |Ext| == |s|
    ensures At(s, i, "/") && At(s, i + 1, nested) && At(s, i + 1 + |nested|, "/")
    ensures At(s, i + 2 + |nested|, nestedParam) && AtEnd(s, i + 2 + |nested| + |nestedParam|, Ext)
  {
    var n := i + 1 + |nested|;
    assert "/" + nested + "/" + nestedParam + Ext == "/" + (nested + ("/" + (nestedParam + Ext)));
    AtConcat(s, i, "/", nested + ("/" + (nestedParam + Ext)));
    AtConcat(s, i + 1, nested, "/" + (nestedParam + Ext));
    AtConcat(s, n, "/", nestedParam + Ext);
    AtConcat(s, n + 1, nestedParam, Ext);
    AtIsAtEnd(s, n + 1 + |nestedParam|, Ext);
  }

  /** The captures of a key laid out as `./pages/<dir>/[<param>]/<nested>/<nestedParam>.tsx`. */
  lemma NestedParamMatch(s: string, dir: string, param: string, nested: string, nestedParam: string)
    requires PlainPart(dir, '[') && PlainPart(param, ']') && PlainPart(nested, '/')
    requires NoLineTerminator(nestedParam)
    requires var q := |Prefix| + |dir| + 2 + |param|;
      var n := q + 2 + |nested|;
      && n + 1 + |nestedParam| <= |s|
      && At(s, 0, Prefix) && At(s, |Prefix|, dir)
      && At(s, |Prefix| + |dir|, "/[") && At(s, |Prefix| + |dir| + 2, param)
      && At(s, q, "]") && At(s, q + 1, "/") && At(s, q + 2, nested)
      && At(s, n, "/") && At(s, n + 1, nestedParam) && AtEnd(s, n + 1 + |nestedParam|, Ext)
    ensures DynamicMatch(s) == Some(DynamicCaptures(dir, param, nested, nestedParam))
  {
    var q := |Prefix| + |dir| + 2 + |param|;
    NestedParamTail(s, q, nested, nestedParam);
    DynamicStart(s, dir, param, q);
  }

  /** A `]` followed by `/<nested>/<nestedParam>.tsx` at the end: the
      parameter group may stop there and the nested groups capture both parts. */
  lemma NestedParamTail(s: string, q: nat, nested: string, nestedParam: string)
    requires q + 3 + |nested| + |nestedParam| <= |s|
    requires PlainPart(nested, '/') && NoLineTerminator(nestedParam)
    requires At(s, q, "]") && At(s, q + 1, "/") && At(s, q + 2, nested)
    requires At(s, q + 2 + |nested|, "/") && At(s, q + 3 + |nested|, nestedParam)
    requires AtEnd(s, q + 3 + |nested| + |nestedParam|, Ext)
    ensures Continues(ParamName, s, q)
    ensures NestedCaptures(s, q + 1) == (nested, nestedParam)
  {
    var n := q + 2 + |nested|;
    var m := n + 1 + |nestedParam|;
    DotsOf(s, n + 1, nestedParam);
    LazyEndAt(NestedParam, s, n + 1, m);
    NestedThenParam(s, n, m);
    NestedPathEnd(s, q + 2, n, nested);
    ParamThenNested(s, q, n);
    NestedBoth(s, q + 1, n, m);
  }

  /** With a second nested segment, the nested parameter is appended to the
      nested path after `:` with no separator: `<dir>/:<param>/<nested>:<nestedParam>`. */
  lemma NestedParamRoute(dir: string, param: string, nested: string, nestedParam: string)
    requires PlainPart(dir, '[') && PlainPart(param, ']') && PlainPart(nested, '/')
    requires NoLineTerminator(nestedParam) && nested != "index" && nested != "" && nestedParam != ""
    ensures DynamicMatch(DynamicKey(dir, param, "/" + nested + "/" + nestedParam + Ext))
      == Some(DynamicCaptures(dir, param, nested, nestedParam))
    ensures RouteOf(DynamicKey(dir, param, "/" + nested + "/" + nestedParam + Ext)).Some?
    ensures RouteOf(DynamicKey(dir, param, "/" + nested + "/" + nestedParam + Ext)).value.path
      == dir + "/:" + param + "/" + nested + ":" + nestedParam
  {
    var s := DynamicKey(dir, param, "/" + nested + "/" + nestedParam + Ext);
    NestedParamLayout(dir, param, nested, nestedParam);
    NestedParamMatch(s, dir, param, nested, nestedParam);
    RouteOfDynamic(s, DynamicCaptures(dir, param, nested, nestedParam));
    NestedParamPath(dir, param, nested, nestedParam, s);
  }

  lemma NestedParamPath(dir: string, param: string, nested: string, nestedParam: string, page: string)
    requires nested != "index" && nested != "" && nestedParam != ""
    ensures DynamicRoute(DynamicCaptures(dir, param, nested, nestedParam), page).path
      == dir + "/:" + param + "/" + nested + ":" + nestedParam
  {
    var base := dir + "/:" + param;
    assert base + ("/" + nested + (":" + nestedParam)) == base + "/" + nested + ":" + nestedParam;
  }

  /** The path of a dynamic route, by cases of the nested captures. */
  lemma DynamicRoutePath(dir: string, param: string, nested: string, nestedParam: string, page: string)
    ensures DynamicRoute(DynamicCaptures(dir, param, nested, nestedParam), page).path
      == dir + "/:" + param
         + (if nested == "index" || nested == "" then ""
            else "/" + nested + (if nestedParam == "" then "" else ":" + nestedParam))
  {
    var base := dir + "/:" + param;
    assert base + "" == base;
    if nested != "index" && nested != "" && nestedParam == "" {
      assert "/" + nested + "" == "/" + nested;
    }
  }

  /** A key with no `/` after `./pages/` never matches the dynamic pattern,
      which needs `/[` after it. */
  lemma NoSlashNotDynamic(s: string)
    requires forall i :: |Prefix| <= i < |s| ==> s[i] != '/'
    ensures DynamicMatch(s).None?
  {
    forall q | 0 <= q <= |s|
      ensures !Hit(RoutePath, s, q)
    {
      if q + |Prefix| <= |s| {
        LazyEndSpec(RoutePath, s, q + |Prefix|);
        var r := LazyEnd(RoutePath, s, q + |Prefix|);
        if r.Some? {
          AtHead(s, r.value, "/[");
        }
      }
    }
  }

  /** A top-level `./pages/[<param>].tsx` has no `/[` after `./pages/`, so it
      falls through to the regular pattern and is served at `/[<param>]`. */
  lemma TopLevelParamRoute(param: string)
    requires PlainPart(param, '/')
    ensures DynamicMatch(Key("[" + param + "]")).None?
    ensures RouteOf(Key("[" + param + "]")).Some?
    ensures RouteOf(Key("[" + param + "]")).value.path == "/" + Lower("[" + param + "]")
  {
    var stem := "[" + param + "]";
    var s := Key(stem);
    BracketStem(param);
    KeyLayout(stem);
    KeyTailAvoids(s, stem, '/');
    NoSlashNotDynamic(s);
    RegularMatchOfKey(stem);
  }

  /** A bracketed stem holds no `/` when the parameter does not, keeps its
      whole name and lower-cases to a name that starts with `[`. */
  lemma BracketStem(param: string)
    requires PlainPart(param, '/')
    ensures PlainPart("[" + param + "]", '/')
    ensures RouteName("[" + param + "]") == "[" + param + "]"
    ensures Lower("[" + param + "]")[0] == '['
  {
    var stem := "[" + param + "]";
    assert forall i :: 1 <= i < |stem| - 1 ==> stem[i] == param[i - 1];
    assert stem[|stem| - 1] == ']';
  }
}
