/**
 * The first server, server.ts: every `.pug` file directly under
 * `./src/views/` is served under the route `determineRoute` names, and a
 * request is answered by exact lookup of its path in that table, or 404.
 * The file list is an input (the directory scan is not modelled) and a page
 * is the name of the template it renders.
 */
module PageServer {
  import opened Wrappers
  import opened Strings
  import opened Assoc
  import opened Http
  import RouteNames

  const ViewsPath := "./src/views/"

  /** `determineRoute(file)`: the shared rule with base `./src/views/` and
      extension `.pug`. */
  function DetermineRoute(file: string): (r: string)
    ensures r != []
  {
    RouteNames.DetermineRoute(file, ViewsPath, [".pug"])
  }

  /** The assignments `routes[determineRoute(file)] = handlePugRendering(file)`,
      one per file in scan order; the handler is the file it renders. */
  function PageWrites(files: seq<string>): (ws: seq<(string, string)>)
    ensures |ws| == |files|
    ensures forall i :: 0 <= i < |files| ==> ws[i] == (DetermineRoute(files[i]), files[i])
  {
    seq(|files|, i requires 0 <= i < |files| => (DetermineRoute(files[i]), files[i]))
  }

  /** The route of each scanned file, in scan order. */
  function ScannedRoutes(files: seq<string>): (rs: seq<string>)
    ensures |rs| == |files| && forall i :: 0 <= i < |files| ==> rs[i] == DetermineRoute(files[i])
  {
    seq(|files|, i requires 0 <= i < |files| => DetermineRoute(files[i]))
  }

  /** The top-level loop that fills `routes`. */
  method BuildRoutes(files: seq<string>) returns (routes: Dict<string>)
    ensures routes == ApplyAll([], PageWrites(files))
  {
    routes := [];
    for i := 0 to |files|
      invariant routes == ApplyAll([], PageWrites(files)[..i])
    {
      ApplyAllPrefix([], PageWrites(files), i);
      var routePath := DetermineRoute(files[i]);
      routes := Put(routes, routePath, files[i]);
    }
    assert PageWrites(files)[..|files|] == PageWrites(files);
  }

  /** The `fetch` handler: the page stored under the exact path, or 404. */
  function Serve(routes: Dict<string>, path: string): (r: Response)
    ensures r.status == 404 <==> path !in Keys(routes)
    ensures r.status == 404 ==> r.body == Text("Not Found")
    ensures path in Keys(routes) ==> r == Response(200, Page(Lookup(routes, path).value, NoData))
  {
    match Lookup(routes, path)
    case Some(file) => Response(200, Page(file, NoData))
    case None => Response(404, Text("Not Found"))
  }

  /** A path is answered 404 exactly when no page file names it. */
  lemma NotFoundIffUnrouted(files: seq<string>, path: string)
    ensures Serve(ApplyAll([], PageWrites(files)), path).status == 404
            <==> forall i :: 0 <= i < |files| ==> DetermineRoute(files[i]) != path
  {
    var ws := PageWrites(files);
    if path in Keys(ApplyAll([], ws)) {
      ApplyAllKeyOrigin([], ws, path);
    }
    if i :| 0 <= i < |files| && DetermineRoute(files[i]) == path {
      ApplyAllHasKey([], ws, i);
    }
  }

  /** Of several files naming the same route, the one scanned last is served. */
  lemma LaterPageWins(files: seq<string>, i: nat)
    requires i < |files|
    requires forall j :: i < j < |files| ==> DetermineRoute(files[j]) != DetermineRoute(files[i])
    ensures Serve(ApplyAll([], PageWrites(files)), DetermineRoute(files[i])) == Response(200, Page(files[i], NoData))
  {
    ApplyAllLast([], PageWrites(files), i);
  }

  /** The routes appear in the order their first file was scanned, each once. */
  lemma RoutesInScanOrder(files: seq<string>)
    ensures DistinctKeys(ApplyAll([], PageWrites(files)))
    ensures forall k :: k in Keys(ApplyAll([], PageWrites(files)))
              <==> exists i :: 0 <= i < |files| && DetermineRoute(files[i]) == k
    ensures Keys(ApplyAll([], PageWrites(files))) == FirstOccurrences(ScannedRoutes(files))
  {
    var ws := PageWrites(files);
    ApplyAllKeyOrder(ws);
    assert Keys(ws) == ScannedRoutes(files);
    ApplyAllKeepsOrder([], ws);
    forall k ensures k in Keys(ApplyAll([], ws)) <==> exists i :: 0 <= i < |files| && DetermineRoute(files[i]) == k {
      if k in Keys(ApplyAll([], ws)) {
        ApplyAllKeyOrigin([], ws, k);
      }
      if i :| 0 <= i < |files| && DetermineRoute(files[i]) == k {
        ApplyAllHasKey([], ws, i);
      }
    }
  }

  /** A page file `./src/views/name.pug` (no `.` or backslash in `name`)
      is served under the route the index rule gives `name`. */
  lemma ViewFile(name: string)
    requires '.' !in name && '\\' !in name
    ensures DetermineRoute(ViewsPath + name + ".pug") == RouteNames.IndexRule(name)
  {
    assert ViewsPath + name + ".pug" == ViewsPath + name + [".pug"][0] + "";
    assert name + "" == name;
    assert '\\' !in ViewsPath;
    RouteNames.PlainFile(ViewsPath, name, [".pug"], 0, "");
  }
}
