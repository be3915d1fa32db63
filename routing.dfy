/**
 * The front router (core/Router.php): a table from normalised paths to handlers,
 * filled one route at a time or from a routes file, and a dispatcher that serves
 * static files under `/public` and otherwise calls the handler registered for the
 * exact request path. File-system checks, the routes file and the MIME fallback
 * are inputs here.
 */
module Routing {
  import opened Wrappers
  import opened Php

  /**
   * A callable route handler: a method of a freshly constructed controller, a
   * function named by a string, or any other callable (a closure).
   */
  datatype Handler = ControllerAction(controller: string, action: string) | FunctionName(name: string) | Closure(id: nat)

  /** One value of the routes file's array: a string or another callable. */
  datatype Callback = Text(s: string) | Callable(h: Handler)

  /** What `require` of the routes file gives: no file, a non-array value, or the array's entries in order. */
  datatype RoutesFile = Missing | NotArray | Entries(entries: seq<(string, Callback)>)

  /** What a request ends in: a static file with its Content-Type, a handler call, or the 404 page. */
  datatype Response = ServeFile(path: string, mime: string) | CallHandler(h: Handler) | NotFound(status: nat, body: string)

  const ControllerNamespace := "App\\Controllers\\"
  const NotFoundBody := "404 - Page not found"

  // ------------------------------------------------------------------- paths

  /** The key `addRoute` stores a path under: leading slashes collapsed to one. */
  function NormalizePath(path: string): string
  {
    "/" + LTrim(path, '/')
  }

  /** A key starts with exactly one slash, followed by the path without its leading slashes. */
  lemma NormalizePathShape(path: string)
    ensures var key := NormalizePath(path);
      && |key| > 0 && key[0] == '/' && (|key| == 1 || key[1] != '/')
      && key[1..] == LTrim(path, '/')
      && (forall i | 0 <= i < |path| - |key| + 1 :: path[i] == '/')
  {
  }

  /** Normalising a key again gives the same key. */
  lemma NormalizePathIdempotent(path: string)
    ensures NormalizePath(NormalizePath(path)) == NormalizePath(path)
  {
    var rest := LTrim(path, '/');
    assert ("/" + rest)[1..] == rest;
    assert LTrim("/" + rest, '/') == LTrim(rest, '/');
    assert LTrim(rest, '/') == rest;
  }

  /** However many slashes a path starts with, it is stored under the same key. */
  lemma {:induction false} LeadingSlashesIgnored(path: string)
    ensures NormalizePath("/" + path) == NormalizePath(path)
  {
    assert ("/" + path)[1..] == path;
  }

  /** The path `dispatch` looks up: trailing slashes stripped, and the empty path read as `/`. */
  function RequestPath(uri: string): (path: string)
    ensures |path| > 0
    ensures path == "/" || path[|path| - 1] != '/'
    ensures path != "/" ==> path == RTrim(uri, '/')
    ensures path == "/" <==> forall i | 0 <= i < |uri| :: uri[i] == '/'
  {
    var trimmed := RTrim(uri, '/');
    if trimmed == "" then "/" else trimmed
  }

  /** Trailing slashes on the request do not change what is dispatched. */
  lemma {:induction false} TrailingSlashIgnored(uri: string)
    ensures RequestPath(uri + "/") == RequestPath(uri)
  {
    var u := uri + "/";
    assert u[..|u| - 1] == uri;
  }

  /** A request path is its own request path: dispatch reaches a key exactly when it is `/` or has no trailing slash. */
  lemma RequestPathFixedPoints(key: string)
    ensures RequestPath(key) == key <==> key == "/" || (|key| > 0 && key[|key| - 1] != '/')
  {
  }

  // -------------------------------------------------------------- callbacks

  /** The part of `s` before its first `c`, or all of `s`. */
  function Before(s: string, c: char): (r: string)
    ensures c !in r && (c in s ==> |r| < |s| && s == r + [c] + s[|r| + 1..])
    ensures c !in s ==> r == s
  {
    match IndexOf(s, c)
    case None => s
    case Some(k) => s[..k]
  }

  /** The part of `s` after its first `c`, or the empty text. */
  function After(s: string, c: char): (r: string)
    ensures c in s ==> s == Before(s, c) + [c] + r
  {
    match IndexOf(s, c)
    case None => ""
    case Some(k) => s[k + 1..]
  }

  /**
   * What the routes file's callback turns into: `"C@m"` names method m of a new
   * `App\Controllers\C` (only the first two `@`-separated parts count), any other
   * string names a function, and any other callable is kept.
   */
  function ResolveCallback(cb: Callback): Handler
  {
    match cb
    case Callable(h) => h
    case Text(s) =>
      if '@' in s then ControllerAction(ControllerNamespace + Before(s, '@'), Before(After(s, '@'), '@'))
      else FunctionName(s)
  }

  /** `"C@m"` with no other `@` resolves to method m of controller class `App\Controllers\C`. */
  lemma ControllerCallback(controller: string, action: string)
    requires '@' !in controller && '@' !in action
    ensures ResolveCallback(Text(controller + "@" + action)) == ControllerAction(ControllerNamespace + controller, action)
  {
    var s := controller + "@" + action;
    assert s[|controller|] == '@';
    assert '@' in s;
    var k := |Before(s, '@')|;
    assert s[..k] == Before(s, '@') && s[k] == '@';
    assert k == |controller|;
    assert Before(s, '@') == controller;
    assert After(s, '@') == action;
  }

  /** A string callback without `@` is kept as a function name; other callables are kept as they are. */
  lemma PlainCallbackPassesThrough(cb: Callback)
    ensures cb.Text? && '@' !in cb.s ==> ResolveCallback(cb) == FunctionName(cb.s)
    ensures cb.Callable? ==> ResolveCallback(cb) == cb.h
  {
  }

  // ---------------------------------------------------------- registration

  /** The table after registering `entries`, in order, on top of `routes`. */
  function Registered(routes: map<string, Handler>, entries: seq<(string, Callback)>): map<string, Handler>
  {
    if entries == [] then routes
    else
      var last := entries[|entries| - 1];
      Registered(routes, entries[..|entries| - 1])[NormalizePath(last.0) := ResolveCallback(last.1)]
  }

  /** Registering two runs of entries is registering the first, then the second on top. */
  lemma {:induction false} RegisteredAppend(routes: map<string, Handler>, a: seq<(string, Callback)>, b: seq<(string, Callback)>)
    ensures Registered(routes, a + b) == Registered(Registered(routes, a), b)
    decreases |b|
  {
    if b == [] {
      assert a + b == a;
    } else {
      var n := |b| - 1;
      assert (a + b)[..|a + b| - 1] == a + b[..n];
      assert (a + b)[|a + b| - 1] == b[n];
      RegisteredAppend(routes, a, b[..n]);
    }
  }

  /** A key that no entry normalises to keeps its old handler, or stays absent. */
  lemma {:induction false} RegisteredKeepsOthers(routes: map<string, Handler>, entries: seq<(string, Callback)>, key: string)
    requires forall j | 0 <= j < |entries| :: NormalizePath(entries[j].0) != key
    ensures key in Registered(routes, entries) <==> key in routes
    ensures key in routes ==> Registered(routes, entries)[key] == routes[key]
  {
    if entries != [] {
      var n := |entries| - 1;
      var init := entries[..n];
      assert forall j | 0 <= j < n :: init[j] == entries[j];
      RegisteredKeepsOthers(routes, init, key);
    }
  }

  /** After registration the key of entry j holds entry j's handler when no later entry has the same key. */
  lemma {:induction false} RegisteredLastWins(routes: map<string, Handler>, entries: seq<(string, Callback)>, j: nat)
    requires j < |entries|
    requires forall l | j < l < |entries| :: NormalizePath(entries[l].0) != NormalizePath(entries[j].0)
    ensures NormalizePath(entries[j].0) in Registered(routes, entries)
    ensures Registered(routes, entries)[NormalizePath(entries[j].0)] == ResolveCallback(entries[j].1)
  {
    var key := NormalizePath(entries[j].0);
    var a, b := entries[..j + 1], entries[j + 1..];
    assert entries == a + b;
    RegisteredAppend(routes, a, b);
    assert a[..j] == entries[..j] && a[j] == entries[j];
    var upto := Registered(routes, a);
    assert key in upto && upto[key] == ResolveCallback(entries[j].1);
    assert forall i | 0 <= i < |b| :: b[i] == entries[j + 1 + i];
    RegisteredKeepsOthers(upto, b, key);
  }

  // ------------------------------------------------------------- dispatch

  /** The static files `dispatch` serves, by extension. */
  const MimeTypes: map<string, string> := map[
    "css" := "text/css",
    "js" := "application/javascript",
    "json" := "application/json",
    "webp" := "image/webp",
    "jpg" := "image/jpeg",
    "jpeg" := "image/jpeg",
    "png" := "image/png",
    "gif" := "image/gif",
    "svg" := "image/svg+xml",
    "woff" := "font/woff",
    "woff2" := "font/woff2",
    "ttf" := "font/ttf",
    "eot" := "application/vnd.ms-fontobject",
    "otf" := "font/otf",
    "mp4" := "video/mp4",
    "webm" := "video/webm",
    "ogg" := "audio/ogg"
  ]

  /** The part of `s` after its last `c`, or None when `s` has no `c`. */
  function AfterLast(s: string, c: char): (r: Option<string>)
    ensures r.None? <==> c !in s
    ensures r.Some? ==> c !in r.value && |r.value| < |s| && s == s[..|s| - |r.value| - 1] + [c] + r.value
  {
    if |s| == 0 then None
    else if s[|s| - 1] == c then Some("")
    else match AfterLast(s[..|s| - 1], c)
      case None => None
      case Some(t) => Some(t + [s[|s| - 1]])
  }

  /** The last segment of a path: the text after its last `/`, or the whole path when it has none. */
  function Basename(path: string): (b: string)
    ensures '/' !in b
    ensures '/' !in path ==> b == path
    ensures '/' in path ==> |b| < |path| && path == path[..|path| - |b| - 1] + "/" + b
  {
    match AfterLast(path, '/') case None => path case Some(b) => b
  }

  /**
   * `pathinfo($path, PATHINFO_EXTENSION)`: what follows the last dot of the last
   * path segment, or "" when that segment has no dot.
   */
  function Extension(path: string): (ext: string)
    ensures '.' !in ext && '/' !in ext
    ensures var base := Basename(path);
      && ('.' !in base ==> ext == "")
      && ('.' in base ==> |ext| < |base| && base == base[..|base| - |ext| - 1] + "." + ext)
  {
    match AfterLast(Basename(path), '.') case None => "" case Some(e) => e
  }

  /** The text after a `c` that is followed by no other `c` is what AfterLast finds. */
  lemma {:induction false} AfterLastOf(s: string, c: char, k: nat)
    requires k < |s| && s[|s| - k - 1] == c
    requires forall i | |s| - k <= i < |s| :: s[i] != c
    ensures AfterLast(s, c) == Some(s[|s| - k..])
    decreases k
  {
    if k == 0 {
      assert s[|s| - 1] == c;
    } else {
      var init := s[..|s| - 1];
      var last := s[|s| - 1];
      assert last != c;
      assert init[|init| - (k - 1) - 1] == c;
      forall i | |init| - (k - 1) <= i < |init|
        ensures init[i] != c
      {
        assert init[i] == s[i];
      }
      AfterLastOf(init, c, k - 1);
      assert AfterLast(s, c) == Some(init[|init| - (k - 1)..] + [last]);
      assert init[|init| - (k - 1)..] + [last] == s[|s| - k..];
    }
  }

  /** A file `name.ext` in any directory has the extension `ext`. */
  lemma ExtensionOfFile(dir: string, name: string, ext: string)
    requires '/' !in name && '/' !in ext && '.' !in ext
    ensures Extension(dir + "/" + name + "." + ext) == ext
  {
    var base := name + "." + ext;
    var path := dir + "/" + base;
    assert dir + "/" + name + "." + ext == path;
    assert path[|path| - |base|..] == base;
    AfterLastOf(path, '/', |base|);
    assert base[|base| - |ext|..] == ext;
    AfterLastOf(base, '.', |ext|);
  }

  /** The Content-Type of a served file: from the table, else what the fallback detects from its contents. */
  function MimeType(ext: string, detected: string): (mime: string)
    ensures ext in MimeTypes ==> mime == MimeTypes[ext]
    ensures ext !in MimeTypes ==> mime == detected
  {
    if ext in MimeTypes then MimeTypes[ext] else detected
  }

  /** Where a `/public…` request path lives on disk, relative to the directory of the router. */
  function PublicFile(coreDir: string, path: string): string
  {
    coreDir + "/.." + path
  }

  /**
   * `dispatch` on a request URI. `files` is the set of existing regular files and
   * `detect` stands for `mime_content_type`.
   */
  function Dispatch(routes: map<string, Handler>, uri: string, coreDir: string, files: set<string>, detect: string -> string)
    : (r: Response)
    ensures r.ServeFile? <==> StartsWith(RequestPath(uri), "/public") && PublicFile(coreDir, RequestPath(uri)) in files
    ensures r.ServeFile? ==>
      r.path == PublicFile(coreDir, RequestPath(uri)) && r.mime == MimeType(Extension(r.path), detect(r.path))
    ensures r.CallHandler? ==> RequestPath(uri) in routes && r.h == routes[RequestPath(uri)]
    ensures r.NotFound? <==> !r.ServeFile? && RequestPath(uri) !in routes
    ensures r.NotFound? ==> r == NotFound(404, NotFoundBody)
  {
    var path := RequestPath(uri);
    var file := PublicFile(coreDir, path);
    if StartsWith(path, "/public") && file in files then ServeFile(file, MimeType(Extension(file), detect(file)))
    else if path in routes then CallHandler(routes[path])
    else NotFound(404, NotFoundBody)
  }

  /** A route added under path p is called by the request for p, unless p is a served static file or ends in a slash. */
  lemma AddedRouteIsDispatched(routes: map<string, Handler>, path: string, h: Handler, coreDir: string,
                               files: set<string>, detect: string -> string)
    requires var key := NormalizePath(path); key == "/" || key[|key| - 1] != '/'
    requires !(StartsWith(NormalizePath(path), "/public") && PublicFile(coreDir, NormalizePath(path)) in files)
    ensures Dispatch(routes[NormalizePath(path) := h], NormalizePath(path), coreDir, files, detect) == CallHandler(h)
  {
    RequestPathFixedPoints(NormalizePath(path));
  }

  /** A key that ends in a slash (other than `/`) is never looked up: no request reaches it. */
  lemma TrailingSlashKeyUnreachable(routes: map<string, Handler>, key: string, uri: string, coreDir: string,
                                    files: set<string>, detect: string -> string)
    requires |key| > 1 && key[|key| - 1] == '/'
    ensures RequestPath(uri) != key
    ensures Dispatch(routes, uri, coreDir, files, detect) == Dispatch(routes - {key}, uri, coreDir, files, detect)
  {
  }

  // ----------------------------------------------------------- the class

  class Router {
    /** The registered routes, by normalised path. */
    var routes: map<string, Handler>

    constructor()
      ensures routes == map[]
    {
      routes := map[];
    }

    /** `addRoute`: the handler replaces any handler already stored under the same normalised path. */
    method AddRoute(path: string, handler: Handler)
      modifies this
      ensures routes == old(routes)[NormalizePath(path) := handler]
    {
      var key := "/" + LTrim(path, '/');
      routes := routes[key := handler];
    }

    /** `loadRoutesFromFile`: registers every entry in order, or throws and registers nothing. */
    method LoadRoutesFromFile(filePath: string, file: RoutesFile) returns (o: Outcome<Throwable>)
      modifies this
      ensures file.Missing? ==> o == Fail(Exception("Routes file not found: " + filePath)) && routes == old(routes)
      ensures file.NotArray? ==> o == Fail(Exception("Invalid routes file. Expected an array.")) && routes == old(routes)
      ensures file.Entries? ==> o == Pass && routes == Registered(old(routes), file.entries)
    {
      match file {
        case Missing =>
          return Fail(Exception("Routes file not found: " + filePath));
        case NotArray =>
          return Fail(Exception("Invalid routes file. Expected an array."));
        case Entries(entries) =>
          var i := 0;
          while i < |entries|
            invariant 0 <= i <= |entries|
            invariant routes == Registered(old(routes), entries[..i])
          {
            var (path, callback) := entries[i];
            assert entries[..i + 1][..i] == entries[..i];
            AddRoute(path, ResolveCallback(callback));
            i := i + 1;
          }
          assert entries[..|entries|] == entries;
          o := Pass;
      }
    }

  }
}
