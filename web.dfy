/**
 * `WebKitten`: the route table merged in by `init_webkitten`, `_route` (which strips
 * trailing path segments into positional arguments until it meets a route the caller may
 * use), and `_web_static` (path guard, MIME type choice, 16 KiB pieces).
 */
module Web {
  import opened Wrappers
  import opened PyText
  import opened Values

  /** One entry of `routes[method]`: `(public?, template, func, title)`; template and handler by name. */
  datatype Route = Route(isPublic: bool, template: string, handler: string, title: string)

  type Table = map<string, Route>

  /** The table of one HTTP method; a method without one has no routes. */
  function TableOf(routes: map<string, Table>, verb: string): (t: Table)
    ensures verb !in routes ==> t == map[]
    ensures verb in routes ==> t == routes[verb]
  {
    if verb in routes then routes[verb] else map[]
  }

  /**
   * The routes after `init_webkitten` merges `added` (the items of its `routes` argument, in
   * order): each method's table is created when missing and `update`d with the new one.
   */
  function Merged(routes: map<string, Table>, added: seq<(string, Table)>): (r: map<string, Table>)
    ensures r.Keys == routes.Keys + set i | 0 <= i < |added| :: added[i].0
  {
    if added == [] then routes
    else
      var n := |added| - 1;
      var r := Merged(routes, added[..n]);
      assert (set i | 0 <= i < |added| :: added[i].0) == (set i | 0 <= i < n :: added[..n][i].0) + {added[n].0};
      r[added[n].0 := TableOf(r, added[n].0) + added[n].1]
  }

  /** A route that no merged table mentions stays as it was. */
  lemma {:induction false} MergedKeeps(routes: map<string, Table>, added: seq<(string, Table)>, verb: string, path: string)
    requires path in TableOf(routes, verb)
    requires forall i :: 0 <= i < |added| && added[i].0 == verb ==> path !in added[i].1
    ensures path in TableOf(Merged(routes, added), verb)
    ensures TableOf(Merged(routes, added), verb)[path] == TableOf(routes, verb)[path]
    decreases |added|
  {
    if added != [] {
      var n := |added| - 1;
      MergedKeeps(routes, added[..n], verb, path);
    }
  }

  /** A merged route is the one of the last table that mentions it. */
  lemma {:induction false} MergedAdds(routes: map<string, Table>, added: seq<(string, Table)>, i: nat, path: string)
    requires i < |added| && path in added[i].1
    requires forall j :: i < j < |added| && added[j].0 == added[i].0 ==> path !in added[j].1
    ensures path in TableOf(Merged(routes, added), added[i].0)
    ensures TableOf(Merged(routes, added), added[i].0)[path] == added[i].1[path]
    decreases |added|
  {
    var n := |added| - 1;
    if i < n {
      MergedAdds(routes, added[..n], i, path);
    }
  }

  // ---------------------------------------------------------------- routing

  /** The route exists and the caller may use it. */
  predicate Usable(table: Table, key: string, authed: bool)
  {
    key in table && (table[key].isPublic || authed)
  }

  /** The path segments stripped off, each written back with the `/` before it. */
  function Suffix(args: seq<string>): (r: string)
    ensures args != [] ==> r != [] && r[0] == '/'
  {
    if args == [] then [] else Suffix(args[..|args| - 1]) + "/" + args[|args| - 1]
  }

  lemma SuffixAppend(args: seq<string>, arg: string)
    ensures Suffix(args + [arg]) == Suffix(args) + "/" + arg
  {
    assert (args + [arg])[..|args|] == args;
  }

  /** Written back, the arguments are the `/`-joined segments after the route key. */
  lemma {:induction false} SuffixJoin(args: seq<string>)
    requires args != []
    ensures Suffix(args) == "/" + Join(args, "/")
    decreases |args|
  {
    var n := |args| - 1;
    if n == 0 {
      assert args[..0] == [];
    } else {
      SuffixJoin(args[..n]);
      JoinAppend(args[..n], args[n], "/");
      assert args[..n] + [args[n]] == args;
    }
  }

  /**
   * What `_route`'s loop finds from `rpath`: the route key reached by splitting segments off
   * the end, and those segments in path order; `None` once no `/` is left to split on.
   */
  function Search(table: Table, rpath: string, authed: bool): (r: Option<(string, seq<string>)>)
    ensures r.Some? ==> Usable(table, r.value.0, authed)
    ensures r.Some? ==> r.value.0 + Suffix(r.value.1) == rpath
    ensures r.Some? ==> forall a :: a in r.value.1 ==> '/' !in a
    decreases |rpath|
  {
    if Usable(table, rpath, authed) then Some((rpath, []))
    else
      match RSplitOnce(rpath, '/')
      case None => None
      case Some((front, arg)) =>
        match Search(table, front, authed)
        case None => None
        case Some((key, args)) =>
          SuffixAppend(args, arg);
          Some((key, args + [arg]))
  }

  /** The `/`s of `front + "/" + arg` when `arg` has none: the one before `arg` and those of `front`. */
  lemma ForeSlashes(front: string, arg: string, i: nat)
    requires '/' !in arg && i < |front + "/" + arg| && (front + "/" + arg)[i] == '/'
    ensures i <= |front|
    ensures i < |front| ==> front[i] == '/' && (front + "/" + arg)[..i] == front[..i]
  {
    var s := front + "/" + arg;
  }

  /** The path itself and each part of it that ends before a `/`: the keys `_route` tries. */
  predicate Candidate(rpath: string, key: string)
  {
    key == rpath || (|key| < |rpath| && rpath[|key|] == '/' && key == rpath[..|key|])
  }

  /** Not found: no candidate is a route the caller may use. */
  lemma {:induction false} SearchNone(table: Table, rpath: string, authed: bool, key: string)
    requires Search(table, rpath, authed).None? && Candidate(rpath, key)
    ensures !Usable(table, key, authed)
    decreases |rpath|
  {
    if key != rpath {
      var (front, arg) := RSplitOnce(rpath, '/').value;
      ForeSlashes(front, arg, |key|);
      if key != front {
        SearchNone(table, front, authed, key);
      }
    }
  }

  /** Found: the key is the longest candidate the caller may use. */
  lemma {:induction false} SearchLongest(table: Table, rpath: string, authed: bool, longer: string)
    requires Search(table, rpath, authed).Some? && Candidate(rpath, longer)
    requires |longer| > |Search(table, rpath, authed).value.0|
    ensures !Usable(table, longer, authed)
    decreases |rpath|
  {
    if longer != rpath {
      var (front, arg) := RSplitOnce(rpath, '/').value;
      ForeSlashes(front, arg, |longer|);
      if longer != front {
        SearchLongest(table, front, authed, longer);
      }
    }
  }

  /** The key found is itself a candidate. */
  lemma FoundCandidate(table: Table, rpath: string, authed: bool)
    requires Search(table, rpath, authed).Some?
    ensures Candidate(rpath, Search(table, rpath, authed).value.0)
  {
    var (key, args) := Search(table, rpath, authed).value;
    if args != [] {
      assert rpath[|key|] == Suffix(args)[0];
    }
  }

  /** `str(KeyError('Route not found: "<method> <path>"'))`. */
  function NotFound(verb: string, path: string): string
  {
    "'Route not found: \"" + verb + " " + path + "\"'"
  }

  const NoPrefix: string := "startswith first arg must be str or a tuple of str, not NoneType"

  /** The path below the prefix, `/` when nothing is left. */
  function Below(path: string, prefix: string): (r: string)
    requires StartsWith(path, prefix)
    ensures r != []
    ensures r == "/" || prefix + r == path
  {
    if path[|prefix|..] == [] then "/" else path[|prefix|..]
  }

  /**
   * `_route(method, path, authed)`: the route found and the positional arguments, a KeyError
   * when the path is outside the prefix or no usable route is left, and the TypeError of a
   * prefix that was never set.
   */
  function Resolve(prefix: Option<string>, routes: map<string, Table>, verb: string, path: string,
                   authed: bool): (r: Result<(Route, seq<string>), Exc>)
    ensures prefix.None? ==> r.Err? && r.error.kind == TypeError
    ensures prefix.Some? && !StartsWith(path, prefix.value) ==> r == Err(Exc(KeyError, NotFound(verb, path)))
    ensures r.Err? && prefix.Some? && StartsWith(path, prefix.value) ==>
      r == Err(Exc(KeyError, NotFound(verb, Below(path, prefix.value))))
    ensures r.Ok? ==> prefix.Some? && StartsWith(path, prefix.value) && verb in routes
    ensures r.Ok? ==> r.value.0.isPublic || authed
    ensures r.Ok? ==> forall a :: a in r.value.1 ==> '/' !in a
  {
    match prefix
    case None => Err(Exc(TypeError, NoPrefix))
    case Some(pre) =>
      if !StartsWith(path, pre) then Err(Exc(KeyError, NotFound(verb, path)))
      else
        var p := Below(path, pre);
        var table := TableOf(routes, verb);
        match Search(table, p, authed)
        case None => Err(Exc(KeyError, NotFound(verb, p)))
        case Some((key, args)) => Ok((table[key], args))
  }

  /** When arguments were split off, the route key, `/` and the `/`-joined arguments make up the path. */
  lemma RouteRebuilt(table: Table, rpath: string, authed: bool)
    requires Search(table, rpath, authed).Some? && Search(table, rpath, authed).value.1 != []
    ensures var (key, args) := Search(table, rpath, authed).value;
      key + "/" + Join(args, "/") == rpath
  {
    var (key, args) := Search(table, rpath, authed).value;
    SuffixJoin(args);
    assert key + Suffix(args) == rpath;
    assert key + ("/" + Join(args, "/")) == key + "/" + Join(args, "/");
  }

  // ---------------------------------------------------------------- static files

  /** `STATIC_MIMETYPES`. */
  const StaticMimetypes: map<string, string> := map[
    "COPYING" := "text/plain",
    "README" := "text/plain",
    ".css" := "text/css",
    ".ico" := "image/x-icon",
    ".jpg" := "image/jpeg",
    ".jpeg" := "image/jpeg",
    ".js" := "text/javascript",
    ".md" := "text/plain",
    ".png" := "image/png",
    ".txt" := "text/plain"]

  const OctetStream: string := "application/octet-stream"

  /** `os.path.basename`: what follows the last `/`. */
  function Basename(p: string): (r: string)
    ensures '/' !in r && IsSuffix(r, p)
  {
    match RSplitOnce(p, '/')
    case None => p
    case Some((_, b)) => b
  }

  /**
   * `os.path.splitext(name)[-1]` of a name without `/`: from the last `.` on, unless every
   * character before that `.` is a `.` too (a dot file has no extension).
   */
  function Extension(name: string): (r: string)
    ensures r == [] || (r[0] == '.' && IsSuffix(r, name) && '.' !in r[1..])
  {
    match LastIndexOf(name, '.')
    case None => []
    case Some(d) =>
      if forall i :: 0 <= i < d ==> name[i] == '.' then []
      else
        forall j | 0 <= j < |name| - d - 1
          ensures name[d..][1..][j] != '.'
        {
          assert name[d..][1..][j] == name[d + 1 + j];
        }
        name[d..]
  }

  /** The MIME type: by file name first, then by extension, else `application/octet-stream`. */
  function Mimetype(resource: string): (r: string)
    ensures Basename(resource) in StaticMimetypes ==> r == StaticMimetypes[Basename(resource)]
    ensures Basename(resource) !in StaticMimetypes && Extension(Basename(resource)) in StaticMimetypes ==>
      r == StaticMimetypes[Extension(Basename(resource))]
    ensures Basename(resource) !in StaticMimetypes && Extension(Basename(resource)) !in StaticMimetypes ==>
      r == OctetStream
  {
    var base := Basename(resource);
    if base in StaticMimetypes then StaticMimetypes[base]
    else
      var ext := Extension(base);
      if ext in StaticMimetypes then StaticMimetypes[ext] else OctetStream
  }

  /** The base name of `dir/name` is `name`. */
  lemma BasenameOf(dir: string, name: string)
    requires '/' !in name
    ensures Basename(dir + "/" + name) == name
  {
    var p := dir + "/" + name;
    assert p[|dir|] == '/';
    var i := LastIndexOf(p, '/').value;
    assert i == |dir|;
    assert p[i + 1..] == name;
  }

  /** The extension of `stem.ext` (a stem not starting with `.`, an extension without `.`) is `.ext`. */
  lemma ExtensionOf(stem: string, ext: string)
    requires '.' !in ext && stem != [] && stem[0] != '.'
    ensures Extension(stem + "." + ext) == "." + ext
  {
    var name := stem + "." + ext;
    var d := |stem|;
    assert name[d] == '.';
    var i := LastIndexOf(name, '.').value;
    assert i == d;
    assert name[0] != '.';
    assert name[d..] == "." + ext;
  }

  /** A file `stem.ext` whose name is not in the table takes the type of `.ext`. */
  lemma MimetypeByExtension(dir: string, stem: string, ext: string)
    requires '/' !in stem && '/' !in ext && '.' !in ext && stem != [] && stem[0] != '.'
    requires stem + "." + ext !in StaticMimetypes
    ensures Mimetype(dir + "/" + stem + "." + ext) ==
      if "." + ext in StaticMimetypes then StaticMimetypes["." + ext] else OctetStream
  {
    var name := stem + "." + ext;
    assert dir + "/" + stem + "." + ext == dir + "/" + name;
    assert '/' !in name by {
      assert forall j :: 0 <= j < |name| ==> name[j] == (if j < |stem| then stem[j] else if j == |stem| then '.' else ext[j - |stem| - 1]);
    }
    BasenameOf(dir, name);
    ExtensionOf(stem, ext);
  }

  /** The cache headers appended to the MIME type. */
  function StaticMimetype(resource: string, today: string): (r: string)
    ensures StartsWith(r, Mimetype(resource))
  {
    var m := Mimetype(resource);
    var r := m + "\nCache-Control: public, max-age=360000, immutable" + "\nLast-Modified: " + today;
    assert r == m + ("\nCache-Control: public, max-age=360000, immutable" + "\nLast-Modified: " + today);
    PrefixOfAppend(m, "\nCache-Control: public, max-age=360000, immutable" + "\nLast-Modified: " + today);
    r
  }

  const PieceSize: nat := 16 * 1024

  /** The pieces `while data: chunk, data = data[:16384], data[16384:]` takes. */
  method Pieces(data: string) returns (pieces: seq<string>)
    ensures Concat(pieces) == data
    ensures forall i :: 0 <= i < |pieces| ==> 0 < |pieces[i]| <= PieceSize
    ensures forall i :: 0 <= i < |pieces| - 1 ==> |pieces[i]| == PieceSize
  {
    pieces := [];
    var rest := data;
    while rest != []
      invariant Concat(pieces) + rest == data
      invariant forall i :: 0 <= i < |pieces| ==> 0 < |pieces[i]| <= PieceSize
      invariant forall i :: 0 <= i < |pieces| - 1 ==> |pieces[i]| == PieceSize
      invariant rest != [] ==> forall i :: 0 <= i < |pieces| ==> |pieces[i]| == PieceSize
      decreases |rest|
    {
      var chunk, next;
      if |rest| <= PieceSize {
        chunk, next := rest, [];
      } else {
        chunk, next := rest[..PieceSize], rest[PieceSize..];
      }
      assert chunk + next == rest;
      ConcatAppend(pieces, chunk);
      pieces := pieces + [chunk];
      rest := next;
    }
  }

  /** One item `_web_static` yields: a piece of the file, or the final error record. */
  datatype StaticItem = Piece(mimetype: string, data: seq<byte>) | Failed(error: string)

  /** The UTF-8 encoding of each piece, in order. */
  function Encoded(mimetype: string, pieces: seq<string>): (items: seq<StaticItem>)
    ensures |items| == |pieces|
    ensures forall i :: 0 <= i < |pieces| ==> items[i] == Piece(mimetype, Utf8(pieces[i]))
  {
    seq(|pieces|, i requires 0 <= i < |pieces| => Piece(mimetype, Utf8(pieces[i])))
  }

  /** The pieces' bytes, in order. */
  function Bytes(items: seq<StaticItem>): seq<byte>
  {
    if items == [] then []
    else Bytes(items[..|items| - 1]) + (match items[|items| - 1] case Piece(_, d) => d case Failed(_) => [])
  }

  /** Encoding piece by piece encodes the whole text. */
  lemma {:induction false} EncodedBytes(mimetype: string, pieces: seq<string>)
    ensures Bytes(Encoded(mimetype, pieces)) == Utf8(Concat(pieces))
    decreases |pieces|
  {
    if pieces != [] {
      var n := |pieces| - 1;
      EncodedBytes(mimetype, pieces[..n]);
      assert Encoded(mimetype, pieces)[..n] == Encoded(mimetype, pieces[..n]);
      Utf8Append(Concat(pieces[..n]), pieces[n]);
    }
  }

  const InvalidPath: string := "Invalid path"

  /**
   * `_web_static(request_info)`: the file's pieces under its MIME type, or one error record
   * when the loader raises an OSError (`source` is the loader's outcome: the text, or
   * `str(e)`); a path holding `/.` or naming nothing after `/static/` is a PermissionError.
   */
  method WebStatic(path: string, today: string, source: Result<string, string>)
    returns (r: Result<seq<StaticItem>, Exc>)
    ensures r.Err? <==> Contains(path, "/.") || SliceFrom(path, 8) == []
    ensures r.Err? ==> r.error == Exc(PermissionError, InvalidPath)
    ensures r.Ok? && source.Err? ==> r.value == [Failed(source.error)]
    ensures r.Ok? && source.Ok? ==> forall i :: 0 <= i < |r.value| ==>
      r.value[i].Piece? && r.value[i].mimetype == StaticMimetype(SliceFrom(path, 8), today) &&
      0 < |r.value[i].data|
    ensures r.Ok? && source.Ok? ==> Bytes(r.value) == Utf8(source.value)
  {
    var resource := SliceFrom(path, 8);
    if Contains(path, "/.") || resource == [] {
      return Err(Exc(PermissionError, InvalidPath));
    }
    var mimetype := StaticMimetype(resource, today);
    match source
    case Err(error) =>
      return Ok([Failed(error)]);
    case Ok(data) =>
      var pieces := Pieces(data);
      EncodedBytes(mimetype, pieces);
      forall i | 0 <= i < |pieces|
        ensures 0 < |Utf8(pieces[i])|
      {
        Utf8NonEmpty(pieces[i]);
      }
      return Ok(Encoded(mimetype, pieces));
  }

  /** A non-empty text encodes to at least one byte. */
  lemma Utf8NonEmpty(s: string)
    requires s != []
    ensures |Utf8(s)| > 0
  {
    assert s == [s[0]] + s[1..];
    Utf8Append([s[0]], s[1..]);
    assert Utf8([s[0]]) == Utf8Char(s[0]) + Utf8([]);
  }

  // ---------------------------------------------------------------- the object

  /** The routing state of a `WebKitten`: the URL prefix and `routes[method][path]`. */
  class WebKitten {
    var prefix: Option<string>
    var routes: map<string, Table>

    /** `__init__`: no prefix yet, an empty table for GET. */
    constructor()
      ensures prefix == None && routes == map["GET" := map[]]
    {
      prefix := None;
      routes := map["GET" := map[]];
    }

    /** `init_webkitten(package, prefix, routes)`: set the prefix and merge the given tables in. */
    method InitWebkitten(prefix: string, added: seq<(string, Table)>)
      modifies this
      ensures this.prefix == Some(prefix)
      ensures routes == Merged(old(routes), added)
    {
      this.prefix := Some(prefix);
      var i := 0;
      while i < |added|
        invariant i <= |added| && this.prefix == Some(prefix)
        invariant routes == Merged(old(routes), added[..i])
      {
        var (verb, table) := added[i];
        assert added[..i + 1][..i] == added[..i];
        if verb !in routes {
          routes := routes[verb := map[]];
        }
        routes := routes[verb := routes[verb] + table];
        i := i + 1;
      }
      assert added[..i] == added;
    }

    /** `_route(method, path, authed)`. */
    method FindRoute(verb: string, path: string, authed: bool) returns (r: Result<(Route, seq<string>), Exc>)
      ensures r == Resolve(prefix, routes, verb, path, authed)
    {
      if prefix.None? {
        return Err(Exc(TypeError, NoPrefix));
      }
      var pre := prefix.value;
      if !StartsWith(path, pre) {
        return Err(Exc(KeyError, NotFound(verb, path)));
      }
      var p := Below(path, pre);
      var table := TableOf(routes, verb);
      var found := Walk(table, p, authed);
      match found
      case None =>
        return Err(Exc(KeyError, NotFound(verb, p)));
      case Some((key, args)) =>
        return Ok((table[key], args));
    }
  }

  /** The loop of `_route`: split the last segment off `rpath` onto the front of `args` until a usable route is met. */
  method Walk(table: Table, path: string, authed: bool) returns (found: Option<(string, seq<string>)>)
    ensures found == Search(table, path, authed)
  {
    var rpath := path;
    var args: seq<string> := [];
    ExtendedNothing(Search(table, path, authed));
    while true
      invariant Search(table, path, authed) == Extended(Search(table, rpath, authed), args)
      decreases |rpath|
    {
      if Usable(table, rpath, authed) {
        assert Search(table, rpath, authed) == Some((rpath, []));
        assert [] + args == args;
        return Some((rpath, args));
      }
      match RSplitOnce(rpath, '/')
      case None =>
        return None;
      case Some((front, arg)) =>
        SearchStep(table, rpath, authed);
        ExtendedTwice(Search(table, front, authed), [arg], args);
        rpath := front;
        args := [arg] + args;
    }
  }

  /** A search result with more arguments after its own. */
  function Extended(r: Option<(string, seq<string>)>, more: seq<string>): Option<(string, seq<string>)>
  {
    match r
    case None => None
    case Some((key, args)) => Some((key, args + more))
  }

  lemma ExtendedTwice(r: Option<(string, seq<string>)>, a: seq<string>, b: seq<string>)
    ensures Extended(Extended(r, a), b) == Extended(r, a + b)
  {
    if r.Some? {
      assert r.value.1 + a + b == r.value.1 + (a + b);
    }
  }

  lemma ExtendedNothing(r: Option<(string, seq<string>)>)
    ensures Extended(r, []) == r
  {
    if r.Some? {
      assert r.value.1 + [] == r.value.1;
    }
  }

  /** One turn of `_route`'s loop: an unusable key is split at its last `/`. */
  lemma SearchStep(table: Table, rpath: string, authed: bool)
    requires !Usable(table, rpath, authed) && RSplitOnce(rpath, '/').Some?
    ensures var (front, arg) := RSplitOnce(rpath, '/').value;
      Search(table, rpath, authed) == Extended(Search(table, front, authed), [arg])
  {
  }
}
