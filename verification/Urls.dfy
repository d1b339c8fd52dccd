/** URLs of a peer's API: the path a request signs, the request target an HTTP client
    sends, and the path the receiver checks.

    The client serialises the URL as the URL Standard says (sections 4.4 and 4.5): line
    breaks and a fragment are dropped, dot segments are resolved, a backslash separates
    segments, and characters outside the kept sets are percent-encoded. */
module Urls {
  import opened Schema
  import opened Codec

  // ----- URL paths -----

  /** Index of the first "://". */
  function FindScheme(url: string): (r: Option<nat>)
    ensures r.Some? ==> r.value + 3 <= |url| && url[r.value..r.value + 3] == "://"
  {
    if |url| < 3 then None
    else if url[..3] == "://" then Some(0)
    else
      match FindScheme(url[1..])
      case None => None
      case Some(i) =>
        assert url[1..][i..i + 3] == url[i + 1..i + 4];
        Some(i + 1)
  }

  function UrlPath(url: string): string {
    match FindScheme(url)
    case None => url
    case Some(pos) =>
      var afterScheme := url[pos + 3..];
      match Find(afterScheme, '/')
      case None => "/"
      case Some(slash) => afterScheme[slash..]
  }

  lemma {:induction false} FindSchemeAt(scheme: string, rest: string)
    requires Free(scheme, ':')
    ensures FindScheme(scheme + "://" + rest) == Some(|scheme|)
  {
    var url := scheme + "://" + rest;
    if scheme == "" {
      assert url[..3] == "://";
    } else {
      assert url[0] != ':' && url[..3][0] != ':';
      assert url[1..] == scheme[1..] + "://" + rest;
      FindSchemeAt(scheme[1..], rest);
    }
  }

  /** The path of a URL is what follows the authority. */
  lemma UrlPathIs(scheme: string, authority: string, path: string)
    requires Free(scheme, ':') && Free(authority, '/') && path != "" && path[0] == '/'
    ensures UrlPath(scheme + "://" + authority + path) == path
  {
    var url := scheme + "://" + authority + path;
    assert url == scheme + "://" + (authority + path);
    FindSchemeAt(scheme, authority + path);
    var rest := authority + path;
    assert url[|scheme| + 3..] == rest;
    assert rest[|authority|] == '/' && rest[..|authority|] == authority;
    FindUnique(rest, '/', |authority|);
    assert rest[|authority|..] == path;
  }

  /** A peer's API URL; `base` is its path prefix, possibly empty. */
  function ApiUrl(scheme: string, authority: string, base: string): string {
    scheme + "://" + authority + base
  }

  /** What `signed_get` and `signed_post` sign for a route of a peer's API. */
  function SignedGetPath(apiUrl: string, route: string): string {
    UrlPath(apiUrl + route)
  }

  function SignedPostPath(route: string): string {
    route
  }

  // ----- Serialisation -----

  /** A character that stands for itself in a path segment, or in a query. */
  predicate Kept(c: char, inQuery: bool) {
    '!' <= c <= '~' && c !in (if inQuery then "\"#<>'" else "\"#<>?^`{}/\\")
  }

  predicate AllKept(s: string, inQuery: bool) {
    forall i :: 0 <= i < |s| ==> Kept(s[i], inQuery)
  }

  function Hex(n: nat): (c: char)
    requires n < 16
    ensures Kept(c, true) && Kept(c, false)
  {
    if n < 10 then '0' + n as char else 'A' + (n - 10) as char
  }

  function PercentEncoded(bytes: seq<nat>): (s: string)
    requires forall i :: 0 <= i < |bytes| ==> bytes[i] < 256
    ensures AllKept(s, true) && AllKept(s, false)
  {
    if bytes == [] then "" else ['%', Hex(bytes[0] / 16), Hex(bytes[0] % 16)] + PercentEncoded(bytes[1..])
  }

  function Utf8(c: char): (bytes: seq<nat>)
    ensures forall i :: 0 <= i < |bytes| ==> bytes[i] < 256
  {
    var n := c as int;
    if n < 0x80 then [n]
    else if n < 0x800 then [0xC0 + n / 0x40, 0x80 + n % 0x40]
    else if n < 0x1_0000 then [0xE0 + n / 0x1000, 0x80 + n / 0x40 % 0x40, 0x80 + n % 0x40]
    else [0xF0 + n / 0x4_0000 % 0x10, 0x80 + n / 0x1000 % 0x40, 0x80 + n / 0x40 % 0x40, 0x80 + n % 0x40]
  }

  function Escaped(s: string, inQuery: bool): (r: string)
    ensures AllKept(r, inQuery)
    ensures AllKept(s, inQuery) ==> r == s
  {
    if s == "" then ""
    else (if Kept(s[0], inQuery) then [s[0]] else PercentEncoded(Utf8(s[0]))) + Escaped(s[1..], inQuery)
  }

  /** The segments of a path. */
  function Split(s: string): (segs: seq<string>)
    ensures segs != []
  {
    if s == "" then [""]
    else if s[0] == '/' || s[0] == '\\' then [""] + Split(s[1..])
    else
      var rest := Split(s[1..]);
      [[s[0]] + rest[0]] + rest[1..]
  }

  function Join(segs: seq<string>): string {
    if segs == [] then "" else if |segs| == 1 then segs[0] else segs[0] + "/" + Join(segs[1..])
  }

  predicate SingleDot(seg: string) {
    seg in {".", "%2e", "%2E"}
  }

  predicate DoubleDot(seg: string) {
    seg in {"..", ".%2e", ".%2E", "%2e.", "%2E.", "%2e%2e", "%2e%2E", "%2E%2e", "%2E%2E"}
  }

  predicate Dots(seg: string) {
    SingleDot(seg) || DoubleDot(seg)
  }

  /** Appends the segments to `done`, each escaped, dropping dot segments and what a
      double dot takes back. */
  function Resolve(segs: seq<string>, done: seq<string>): seq<string> {
    if segs == [] then done
    else
      var end := if |segs| == 1 then [""] else [];
      if DoubleDot(segs[0]) then Resolve(segs[1..], (if done == [] then [] else done[..|done| - 1]) + end)
      else if SingleDot(segs[0]) then Resolve(segs[1..], done + end)
      else Resolve(segs[1..], done + [Escaped(segs[0], false)])
  }

  function WirePath(path: string): string {
    "/" + Join(Resolve(Split(if path == "" then "" else path[1..]), []))
  }

  function Trimmed(s: string): string {
    if s != "" && s[|s| - 1] <= ' ' then Trimmed(s[..|s| - 1]) else s
  }

  function WithoutBreaks(s: string): string {
    if s == "" then ""
    else (if s[0] == '\t' || s[0] == '\n' || s[0] == '\r' then "" else [s[0]]) + WithoutBreaks(s[1..])
  }

  function Before(s: string, c: char): string {
    match Find(s, c)
    case None => s
    case Some(i) => s[..i]
  }

  function WireTarget(t: string): string {
    match Find(t, '?')
    case None => WirePath(t)
    case Some(i) => WirePath(t[..i]) + "?" + Escaped(t[i + 1..], true)
  }

  /** The request target sent for a URL with this path and query after its authority. */
  function Wire(target: string): string {
    WireTarget(Before(WithoutBreaks(Trimmed(target)), '#'))
  }

  // ----- Targets that are sent as they are -----

  predicate InPath(s: string) {
    forall i :: 0 <= i < |s| ==> s[i] == '/' || Kept(s[i], false)
  }

  predicate NoDots(segs: seq<string>) {
    forall i :: 0 <= i < |segs| ==> !Dots(segs[i])
  }

  predicate PlainPath(path: string) {
    path != "" && path[0] == '/' && InPath(path) && NoDots(Split(path[1..]))
  }

  /** Only characters that stand for themselves, and no dot segments. */
  predicate Plain(target: string) {
    match Find(target, '?')
    case None => PlainPath(target)
    case Some(i) => PlainPath(target[..i]) && AllKept(target[i + 1..], true)
  }

  lemma {:induction false} JoinSplit(s: string)
    requires InPath(s)
    ensures Join(Split(s)) == s
    ensures forall i :: 0 <= i < |Split(s)| ==> AllKept(Split(s)[i], false)
  {
    if s != "" {
      JoinSplit(s[1..]);
      var rest := Split(s[1..]);
      assert Kept(s[0], false) || s[0] == '/';
      if s[0] != '/' {
        assert Split(s) == [[s[0]] + rest[0]] + rest[1..];
        assert Split(s)[1..] == rest[1..];
      }
    }
  }

  lemma {:induction false} ResolvePlain(segs: seq<string>, done: seq<string>)
    requires NoDots(segs) && forall i :: 0 <= i < |segs| ==> AllKept(segs[i], false)
    ensures Resolve(segs, done) == done + segs
  {
    if segs != [] {
      assert NoDots(segs[1..]);
      ResolvePlain(segs[1..], done + [segs[0]]);
    }
  }

  lemma PlainPathSent(path: string)
    requires PlainPath(path)
    ensures WirePath(path) == path
  {
    JoinSplit(path[1..]);
    ResolvePlain(Split(path[1..]), []);
    assert [] + Split(path[1..]) == Split(path[1..]);
  }

  /** What never occurs in a request target. */
  predicate Visible(s: string) {
    forall i :: 0 <= i < |s| ==> s[i] > ' ' && s[i] != '#'
  }

  lemma {:induction false} NothingDropped(s: string)
    requires Visible(s)
    ensures Trimmed(s) == s && WithoutBreaks(s) == s && Before(s, '#') == s
  {
    if s != "" {
      NothingDropped(s[1..]);
      assert Free(s, '#');
    }
  }

  lemma PlainIsVisible(target: string)
    requires Plain(target)
    ensures Visible(target)
  {
    match Find(target, '?')
    case None =>
    case Some(i) =>
      forall k | 0 <= k < |target| ensures target[k] > ' ' && target[k] != '#' {
        assert k < i ==> target[k] == target[..i][k];
        assert k > i ==> target[k] == target[i + 1..][k - i - 1];
      }
  }

  lemma AtQuery(t: string, i: nat)
    requires Find(t, '?') == Some(i)
    ensures t == t[..i] + "?" + t[i + 1..]
  {
  }

  lemma PlainTargetSent(target: string)
    requires Plain(target)
    ensures WireTarget(target) == target
  {
    match Find(target, '?')
    case None => PlainPathSent(target);
    case Some(i) =>
      AtQuery(target, i);
      PlainPathSent(target[..i]);
  }

  lemma PlainSent(target: string)
    requires Plain(target)
    ensures Wire(target) == target
  {
    PlainIsVisible(target);
    NothingDropped(target);
    PlainTargetSent(target);
  }

  // ----- A target that is not plain is not sent as it is -----

  function Size(segs: seq<string>): nat {
    if segs == [] then 0 else |segs[0]| + 1 + Size(segs[1..])
  }

  lemma {:induction false} SizeAppend(a: seq<string>, b: seq<string>)
    ensures Size(a + b) == Size(a) + Size(b)
  {
    if a == [] {
      assert a + b == b;
    } else {
      assert (a + b)[0] == a[0] && (a + b)[1..] == a[1..] + b;
      SizeAppend(a[1..], b);
    }
  }

  lemma {:induction false} JoinSize(segs: seq<string>)
    requires segs != []
    ensures |Join(segs)| == Size(segs) - 1
  {
    if |segs| > 1 {
      JoinSize(segs[1..]);
    }
  }

  lemma LastOff(done: seq<string>)
    ensures Size(if done == [] then [] else done[..|done| - 1]) <= Size(done)
  {
    if done != [] {
      SizeAppend(done[..|done| - 1], [done[|done| - 1]]);
      assert done == done[..|done| - 1] + [done[|done| - 1]];
    }
  }

  /** Resolving segments that need no escape makes nothing longer, and a dot segment
      makes it shorter. */
  lemma {:induction false} ResolveShrinks(segs: seq<string>, done: seq<string>)
    requires forall i :: 0 <= i < |segs| ==> AllKept(segs[i], false)
    ensures Size(Resolve(segs, done)) <= Size(done) + Size(segs)
    ensures !NoDots(segs) ==> Size(Resolve(segs, done)) < Size(done) + Size(segs)
    ensures segs != [] ==> Resolve(segs, done) != []
    ensures done != [] && segs == [] ==> Resolve(segs, done) != []
  {
    if segs != [] {
      var end := if |segs| == 1 then [""] else [];
      assert Size([""]) == 1 && Size(end) <= 1;
      var popped := if done == [] then [] else done[..|done| - 1];
      var next :=
        if DoubleDot(segs[0]) then popped + end
        else if SingleDot(segs[0]) then done + end
        else done + [segs[0]];
      LastOff(done);
      SizeAppend(popped, end);
      SizeAppend(done, end);
      SizeAppend(done, [segs[0]]);
      assert Size([segs[0]]) == |segs[0]| + 1;
      assert !NoDots(segs) ==> Dots(segs[0]) || !NoDots(segs[1..]);
      ResolveShrinks(segs[1..], next);
    }
  }

  lemma PathShrinks(path: string)
    requires path != "" && path[0] == '/' && InPath(path)
    ensures |WirePath(path)| <= |path|
    ensures !PlainPath(path) ==> |WirePath(path)| < |path|
  {
    var segs := Split(path[1..]);
    JoinSplit(path[1..]);
    ResolveShrinks(segs, []);
    JoinSize(segs);
    JoinSize(Resolve(segs, []));
  }

  lemma {:induction false} JoinInPath(segs: seq<string>)
    requires forall i :: 0 <= i < |segs| ==> AllKept(segs[i], false)
    ensures InPath(Join(segs))
  {
    if |segs| > 1 {
      JoinInPath(segs[1..]);
    }
  }

  lemma {:induction false} ResolveKept(segs: seq<string>, done: seq<string>)
    requires forall i :: 0 <= i < |done| ==> AllKept(done[i], false)
    ensures forall i :: 0 <= i < |Resolve(segs, done)| ==> AllKept(Resolve(segs, done)[i], false)
    decreases |segs|
  {
    if segs != [] {
      var end := if |segs| == 1 then [""] else [];
      ResolveKept(segs[1..],
                  if DoubleDot(segs[0]) then (if done == [] then [] else done[..|done| - 1]) + end
                  else if SingleDot(segs[0]) then done + end
                  else done + [Escaped(segs[0], false)]);
    }
  }

  lemma WirePathInPath(path: string)
    ensures InPath(WirePath(path))
  {
    var segs := Split(if path == "" then "" else path[1..]);
    ResolveKept(segs, []);
    JoinInPath(Resolve(segs, []));
  }

  lemma VisibleParts(w: string, e: string)
    requires InPath(w) && AllKept(e, true)
    ensures Visible(w + "?" + e)
  {
    forall k | 0 <= k < |w + "?" + e| ensures (w + "?" + e)[k] > ' ' && (w + "?" + e)[k] != '#' {
      if k < |w| { assert InPath(w); } else if k > |w| { assert Kept(e[k - |w| - 1], true); }
    }
  }

  lemma WireVisible(t: string)
    ensures Visible(WireTarget(t))
  {
    match Find(t, '?')
    case None => WirePathInPath(t);
    case Some(i) =>
      WirePathInPath(t[..i]);
      VisibleParts(WirePath(t[..i]), Escaped(t[i + 1..], true));
  }

  /** If a query is sent behind itself, it is sent as it is. */
  lemma QueryPart(w: string, y: string, q: string)
    requires w + "?" + Escaped(q, true) == y + "?" + q && Free(w, '?')
    ensures AllKept(q, true) && w == y
  {
    var e := Escaped(q, true);
    var all := w + "?" + e;
    assert all[|w|] == '?' && all[..|w|] == w && all[|w| + 1..] == e;
    assert all[|y|] == '?' && all[..|y|] == y && all[|y| + 1..] == q;
    FindUnique(all, '?', |w|);
    assert |w| <= |y|;
    forall k | 0 <= k < |q| ensures Kept(q[k], true) {
      assert q[k] == all[|y| + 1 + k] == e[|y| - |w| + k];
    }
  }

  lemma VisibleSuffix(x: string, t: string)
    requires Visible(x + t)
    ensures Visible(t)
  {
    forall k | 0 <= k < |t| ensures t[k] > ' ' && t[k] != '#' {
      assert t[k] == (x + t)[|x| + k];
    }
  }

  lemma QueryBehind(x: string, p: string, q: string)
    requires p != "" && p[0] == '/' && WirePath(p) + "?" + Escaped(q, true) == x + (p + "?" + q)
    ensures x == "" && PlainPath(p) && AllKept(q, true)
  {
    assert x + (p + "?" + q) == (x + p) + "?" + q;
    WirePathInPath(p);
    QueryPart(WirePath(p), x + p, q);
    PathBehind(x, p);
  }

  lemma TargetBehind(x: string, target: string)
    requires target != "" && target[0] == '/' && WireTarget(target) == x + target
    ensures x == "" && Plain(target)
  {
    match Find(target, '?')
    case None => PathBehind(x, target);
    case Some(i) =>
      AtQuery(target, i);
      QueryBehind(x, target[..i], target[i + 1..]);
  }

  /** A target that is sent behind `x` and is nothing but itself is plain, and `x` is empty. */
  lemma SentBehind(x: string, target: string)
    requires target != "" && target[0] == '/' && Wire(target) == x + target
    ensures x == "" && Plain(target)
  {
    WireVisible(Before(WithoutBreaks(Trimmed(target)), '#'));
    VisibleSuffix(x, target);
    NothingDropped(target);
    TargetBehind(x, target);
  }

  lemma PathBehind(x: string, path: string)
    requires path != "" && path[0] == '/' && WirePath(path) == x + path
    ensures x == "" && PlainPath(path)
  {
    WirePathInPath(path);
    forall k | 0 <= k < |path| ensures path[k] == '/' || Kept(path[k], false) {
      assert path[k] == (x + path)[|x| + k];
    }
    PathShrinks(path);
  }

  /** A target is sent as it is exactly when it is plain. */
  lemma SentAsIsIff(target: string)
    requires target != "" && target[0] == '/'
    ensures Wire(target) == target <==> Plain(target)
  {
    if Plain(target) {
      PlainSent(target);
    }
    if Wire(target) == target {
      assert target == "" + target;
      SentBehind("", target);
    }
  }

  // ----- What is signed and what is received -----

  /** The request target that reaches the receiver: the client sends the serialised prefix
      and route, and a proxy in between removes the prefix `stripped` where it finds it. */
  function ReceivedPath(base: string, route: string, stripped: string): string {
    var sent := Wire(base + route);
    if stripped <= sent then sent[|stripped|..] else sent
  }

  lemma GetPathIs(scheme: string, authority: string, base: string, route: string)
    requires Free(scheme, ':') && Free(authority, '/')
    requires route != "" && route[0] == '/' && (base == "" || base[0] == '/')
    ensures SignedGetPath(ApiUrl(scheme, authority, base), route) == base + route
  {
    assert ApiUrl(scheme, authority, base) + route == scheme + "://" + authority + (base + route);
    UrlPathIs(scheme, authority, base + route);
  }

  /** A GET signs the path that is received exactly when the path is sent as it is and
      nothing is removed from it. */
  lemma GetPathAgreesIff(scheme: string, authority: string, base: string, route: string, stripped: string)
    requires Free(scheme, ':') && Free(authority, '/')
    requires route != "" && route[0] == '/' && (base == "" || base[0] == '/')
    ensures SignedGetPath(ApiUrl(scheme, authority, base), route) == ReceivedPath(base, route, stripped) <==>
      Plain(base + route) && (stripped == "" || !(stripped <= base + route))
  {
    GetPathIs(scheme, authority, base, route);
    ReceivedAsIsIff(base + route, stripped);
  }

  lemma ReceivedAsIsIff(path: string, stripped: string)
    requires path != "" && path[0] == '/'
    ensures (if stripped <= Wire(path) then Wire(path)[|stripped|..] else Wire(path)) == path <==>
      Plain(path) && (stripped == "" || !(stripped <= path))
  {
    var sent := Wire(path);
    RemovedIs(sent, stripped, path);
    SentAsIsIff(path);
    if stripped <= sent && sent == stripped + path {
      SentBehind(stripped, path);
    }
  }

  lemma RemovedIs(sent: string, stripped: string, route: string)
    ensures (if stripped <= sent then sent[|stripped|..] else sent) == route <==>
      if stripped <= sent then sent == stripped + route else sent == route
  {
    if stripped <= sent {
      assert sent == stripped + sent[|stripped|..];
    }
  }

  lemma PrefixRemovedIff(base: string, route: string, stripped: string)
    ensures (if stripped <= base + route then base + route == stripped + route else base + route == route) <==>
      stripped == base || (base == "" && !(stripped <= route))
  {
    var path := base + route;
    assert path[..|base|] == base && base <= path;
    if stripped <= path && path == stripped + route {
      assert |stripped| == |base| && path[..|stripped|] == stripped;
    }
    assert base == "" ==> path == route;
  }

  /** A POST signs the path that is received exactly when what is removed is what was sent
      before the route; for a plain path, that is the prefix of the API URL. */
  lemma PostPathAgreesIff(base: string, route: string, stripped: string)
    requires route != "" && route[0] == '/' && (base == "" || base[0] == '/')
    ensures SignedPostPath(route) == ReceivedPath(base, route, stripped) <==>
      if stripped <= Wire(base + route) then Wire(base + route) == stripped + route else Wire(base + route) == route
    ensures Plain(base + route) ==>
      (SignedPostPath(route) == ReceivedPath(base, route, stripped) <==>
       stripped == base || (base == "" && !(stripped <= route)))
  {
    RemovedIs(Wire(base + route), stripped, route);
    SentAsIsIff(base + route);
    PrefixRemovedIff(base, route, stripped);
  }

  /** Whatever a proxy removes, both methods sign the path that is received exactly when
      the API URL has no path prefix, the route is sent as it is, and nothing is removed. */
  lemma SignedPathsAgreeIff(scheme: string, authority: string, base: string, route: string, stripped: string)
    requires Free(scheme, ':') && Free(authority, '/')
    requires route != "" && route[0] == '/' && (base == "" || base[0] == '/')
    ensures var received := ReceivedPath(base, route, stripped);
      SignedGetPath(ApiUrl(scheme, authority, base), route) == received && SignedPostPath(route) == received <==>
      base == "" && Plain(route) && (stripped == "" || !(stripped <= route))
  {
    GetPathIs(scheme, authority, base, route);
    GetPathAgreesIff(scheme, authority, base, route, stripped);
    PostPathAgreesIff(base, route, stripped);
    assert "" + route == route;
    assert base + route == route <==> base == "";
  }

  /** With the default API URL, whatever a proxy removes, not both methods verify. */
  lemma DefaultUrlNeverAgrees(host: string, route: string, stripped: string)
    requires Free(host, '/') && route != "" && route[0] == '/'
    ensures var api, received := ApiUrl("https", host, "/api"), ReceivedPath("/api", route, stripped);
      !(SignedGetPath(api, route) == received && SignedPostPath(route) == received)
  {
    SignedPathsAgreeIff("https", host, "/api", route, stripped);
  }

  // ----- The route of a key request -----

  function KeysRoute(username: string): string {
    "/s2s/users/" + username + "/keys"
  }

  lemma {:induction false} SplitAppend(a: string, b: string)
    requires Free(a, '/') && Free(a, '\\')
    ensures Split(a + "/" + b) == [a] + Split(b)
  {
    if a == "" {
      assert a + "/" + b == "/" + b && ("/" + b)[1..] == b;
    } else {
      assert (a + "/" + b)[1..] == a[1..] + "/" + b;
      SplitAppend(a[1..], b);
      assert a == [a[0]] + a[1..];
    }
  }

  lemma KeysSegments(username: string)
    requires Free(username, '/') && Free(username, '\\')
    ensures Split(KeysRoute(username)[1..]) == ["s2s", "users", username, "keys"]
  {
    var rest := KeysRoute(username)[1..];
    assert rest == "s2s" + "/" + ("users" + "/" + (username + "/" + "keys"));
    SplitAppend("s2s", "users" + "/" + (username + "/" + "keys"));
    SplitAppend("users", username + "/" + "keys");
    SplitAppend(username, "keys");
    SplitSingle("keys");
  }

  lemma {:induction false} SplitSingle(a: string)
    requires Free(a, '/') && Free(a, '\\')
    ensures Split(a) == [a]
  {
    if a != "" {
      SplitSingle(a[1..]);
      assert a == [a[0]] + a[1..];
    }
  }

  lemma KeysRouteInPath(username: string)
    ensures InPath(KeysRoute(username)) <==> InPath(username)
  {
    var route := KeysRoute(username);
    forall i | 0 <= i < |username| ensures username[i] == route[11 + i] {
    }
  }

  /** The request for a user's keys is sent as it is exactly when the username needs no
      escape and is not a dot segment. */
  lemma KeysRoutePlainIff(username: string)
    requires Free(username, '/') && Free(username, '?')
    ensures Plain(KeysRoute(username)) <==> AllKept(username, false) && !Dots(username)
  {
    var route := KeysRoute(username);
    assert Free(route, '?');
    KeysRouteInPath(username);
    if InPath(username) {
      assert Free(username, '\\');
      KeysSegments(username);
      var segs := ["s2s", "users", username, "keys"];
      assert segs[2] == username;
      assert !Dots("s2s") && !Dots("users") && !Dots("keys");
    }
  }

  // ----- The username that arrives -----

  function HexValue(c: char): Option<nat> {
    if '0' <= c <= '9' then Some(c as int - '0' as int)
    else if 'A' <= c <= 'F' then Some(c as int - 'A' as int + 10)
    else if 'a' <= c <= 'f' then Some(c as int - 'a' as int + 10)
    else None
  }

  /** The octets of a path segment, with escapes undone. */
  function Decoded(s: string): seq<nat> {
    if s == "" then []
    else if |s| >= 3 && s[0] == '%' && HexValue(s[1]).Some? && HexValue(s[2]).Some? then
      [HexValue(s[1]).value * 16 + HexValue(s[2]).value] + Decoded(s[3..])
    else Utf8(s[0]) + Decoded(s[1..])
  }

  function Octets(s: string): seq<nat> {
    if s == "" then [] else Utf8(s[0]) + Octets(s[1..])
  }

  /** The scalar value that UTF-8 octets stand for (RFC 3629, section 3). */
  function Scalar(bytes: seq<int>): int {
    if |bytes| == 1 then bytes[0]
    else if |bytes| == 2 then (bytes[0] - 0xC0) * 0x40 + (bytes[1] - 0x80)
    else if |bytes| == 3 then (bytes[0] - 0xE0) * 0x1000 + (bytes[1] - 0x80) * 0x40 + (bytes[2] - 0x80)
    else if |bytes| == 4 then
      (bytes[0] - 0xF0) * 0x4_0000 + (bytes[1] - 0x80) * 0x1000 + (bytes[2] - 0x80) * 0x40 + (bytes[3] - 0x80)
    else -1
  }

  lemma Utf8RoundTrip(c: char)
    ensures Scalar(Utf8(c)) == c as int
  {
    var n := c as int;
    SixBits(n);
    SixBits(n / 0x40);
    SixBits(n / 0x1000);
    assert n / 0x40 / 0x40 == n / 0x1000 && n / 0x1000 / 0x40 == n / 0x4_0000;
  }

  lemma SixBits(n: nat)
    ensures n == n / 0x40 * 0x40 + n % 0x40
  {
  }

  lemma HexRoundTrip(n: nat)
    requires n < 16
    ensures HexValue(Hex(n)) == Some(n)
  {
  }

  lemma TripletDecodes(n: nat, rest: string)
    requires n < 256
    ensures Decoded(['%', Hex(n / 16), Hex(n % 16)] + rest) == [n] + Decoded(rest)
  {
    HexRoundTrip(n / 16);
    HexRoundTrip(n % 16);
    assert (['%', Hex(n / 16), Hex(n % 16)] + rest)[3..] == rest;
  }

  lemma {:induction false} PercentDecodes(bytes: seq<nat>, rest: string)
    requires forall i :: 0 <= i < |bytes| ==> bytes[i] < 256
    ensures Decoded(PercentEncoded(bytes) + rest) == bytes + Decoded(rest)
    decreases |bytes|
  {
    if bytes == [] {
      assert PercentEncoded(bytes) + rest == rest;
    } else {
      var n, more := bytes[0], PercentEncoded(bytes[1..]);
      Regrouped(['%', Hex(n / 16), Hex(n % 16)], more, rest);
      TripletDecodes(n, more + rest);
      PercentDecodes(bytes[1..], rest);
      Regrouped([n], bytes[1..], Decoded(rest));
      assert [n] + bytes[1..] == bytes;
    }
  }

  lemma Regrouped<T>(a: seq<T>, b: seq<T>, c: seq<T>)
    ensures (a + b) + c == a + (b + c)
  {
  }

  /** Undoing the escapes gives the text back, unless it had a '%' of its own. */
  lemma {:induction false} EscapedDecodes(s: string, inQuery: bool)
    requires Free(s, '%')
    ensures Decoded(Escaped(s, inQuery)) == Octets(s)
  {
    if s != "" {
      EscapedDecodes(s[1..], inQuery);
      var rest := Escaped(s[1..], inQuery);
      if Kept(s[0], inQuery) {
        assert ([s[0]] + rest)[1..] == rest;
      } else {
        PercentDecodes(Utf8(s[0]), rest);
      }
    }
  }

  /** What is sent for the keys of a user: the route of the escaped name, but a name that is
      a dot segment takes it elsewhere. */
  lemma KeysRouteSent(username: string)
    requires Free(username, '/') && Free(username, '\\') && Free(username, '?') && Free(username, '#')
    requires Free(username, '\t') && Free(username, '\n') && Free(username, '\r')
    ensures Wire(KeysRoute(username)) ==
      if DoubleDot(username) then "/s2s/keys"
      else if SingleDot(username) then "/s2s/users/keys"
      else KeysRoute(Escaped(username, false))
  {
    var route := KeysRoute(username);
    NothingToDrop(username);
    FreeInRoute(username, '?');
    KeysSegments(username);
    KeysResolved(username);
  }

  lemma FreeInRoute(username: string, c: char)
    requires Free(username, c) && c !in "/s2s/users/keys"
    ensures Free(KeysRoute(username), c)
  {
  }

  lemma NothingToDrop(username: string)
    requires Free(username, '#') && Free(username, '\t') && Free(username, '\n') && Free(username, '\r')
    ensures var route := KeysRoute(username); Before(WithoutBreaks(Trimmed(route)), '#') == route
  {
    var route := KeysRoute(username);
    FreeInRoute(username, '\t');
    FreeInRoute(username, '\n');
    FreeInRoute(username, '\r');
    FreeInRoute(username, '#');
    BreaksFree(route);
  }

  lemma {:induction false} BreaksFree(s: string)
    requires Free(s, '\t') && Free(s, '\n') && Free(s, '\r')
    ensures WithoutBreaks(s) == s
  {
    if s != "" {
      BreaksFree(s[1..]);
    }
  }

  lemma ResolveStep(seg: string, rest: seq<string>, done: seq<string>)
    requires rest != []
    ensures Resolve([seg] + rest, done) ==
      if DoubleDot(seg) then Resolve(rest, if done == [] then [] else done[..|done| - 1])
      else Resolve(rest, if SingleDot(seg) then done else done + [Escaped(seg, false)])
  {
    assert ([seg] + rest)[1..] == rest;
    var before := if done == [] then [] else done[..|done| - 1];
    assert done + [] == done && before + [] == before;
  }

  lemma KeptStep(seg: string, rest: seq<string>, done: seq<string>)
    requires rest != [] && !Dots(seg) && AllKept(seg, false)
    ensures Resolve([seg] + rest, done) == Resolve(rest, done + [seg])
  {
    ResolveStep(seg, rest, done);
  }

  lemma ResolveLast(seg: string, done: seq<string>)
    requires !Dots(seg) && AllKept(seg, false)
    ensures Resolve([seg], done) == done + [seg]
  {
    assert [seg][1..] == [];
  }

  lemma JoinStep(seg: string, rest: seq<string>)
    requires rest != []
    ensures Join([seg] + rest) == seg + "/" + Join(rest)
  {
    assert ([seg] + rest)[1..] == rest;
  }

  lemma ResolveRoute(a: string, b: string, name: string, c: string)
    requires !Dots(a) && !Dots(b) && !Dots(c) && AllKept(a, false) && AllKept(b, false) && AllKept(c, false)
    ensures Resolve([a] + ([b] + ([name] + [c])), []) ==
      if DoubleDot(name) then [a] + [c]
      else if SingleDot(name) then [a] + ([b] + [c])
      else [a] + ([b] + ([Escaped(name, false)] + [c]))
  {
    KeptStep(a, [b] + ([name] + [c]), []);
    KeptStep(b, [name] + [c], [] + [a]);
    var done := [] + [a] + [b];
    ResolveStep(name, [c], done);
    if DoubleDot(name) {
      assert done[..1] == [a];
      ResolveLast(c, [a]);
    } else {
      ResolveLast(c, if SingleDot(name) then done else done + [Escaped(name, false)]);
    }
  }

  lemma JoinRoute(a: string, b: string, name: string, c: string)
    ensures Join([a] + [c]) == a + "/" + c
    ensures Join([a] + ([b] + [c])) == a + "/" + (b + "/" + c)
    ensures Join([a] + ([b] + ([name] + [c]))) == a + "/" + (b + "/" + (name + "/" + c))
  {
    JoinStep(a, [c]);
    JoinStep(a, [b] + [c]);
    JoinStep(b, [c]);
    JoinStep(a, [b] + ([name] + [c]));
    JoinStep(b, [name] + [c]);
    JoinStep(name, [c]);
  }

  lemma JoinResolved(a: string, b: string, name: string, c: string)
    requires !Dots(a) && !Dots(b) && !Dots(c) && AllKept(a, false) && AllKept(b, false) && AllKept(c, false)
    ensures Join(Resolve([a, b, name, c], [])) ==
      if DoubleDot(name) then a + "/" + c
      else if SingleDot(name) then a + "/" + (b + "/" + c)
      else a + "/" + (b + "/" + (Escaped(name, false) + "/" + c))
  {
    assert [a, b, name, c] == [a] + ([b] + ([name] + [c]));
    ResolveRoute(a, b, name, c);
    JoinRoute(a, b, Escaped(name, false), c);
  }

  lemma KeysResolved(username: string)
    ensures "/" + Join(Resolve(["s2s", "users", username, "keys"], [])) ==
      if DoubleDot(username) then "/s2s/keys"
      else if SingleDot(username) then "/s2s/users/keys"
      else KeysRoute(Escaped(username, false))
  {
    RouteSegments();
    JoinResolved("s2s", "users", username, "keys");
    RouteParts(Escaped(username, false));
  }

  lemma RouteSegments()
    ensures !Dots("s2s") && !Dots("users") && !Dots("keys")
    ensures AllKept("s2s", false) && AllKept("users", false) && AllKept("keys", false)
  {
  }

  lemma RouteParts(name: string)
    ensures "/" + ("s2s" + "/" + "keys") == "/s2s/keys"
    ensures "/" + ("s2s" + "/" + ("users" + "/" + "keys")) == "/s2s/users/keys"
    ensures "/" + ("s2s" + "/" + ("users" + "/" + (name + "/" + "keys"))) == KeysRoute(name)
  {
  }
}
