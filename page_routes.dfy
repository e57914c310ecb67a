/**
 * `determineRoute` as src/server/routing/pages.ts, src/server/requests/pages.ts
 * and src/server.ts each define it: the shared route-name rule with the pages
 * directory `./src/views/pages/` as base and `.pug` as the only extension.
 * The first two read the directory from src/server/server.ts, the third
 * declares the same text itself, so the three are one function.
 */
module PageRoutes {
  import opened Strings
  import RouteNames
  import opened Wrappers
  import Router

  const PagesPath := "./src/views/pages/"

  /** `determineRoute(file)`. */
  function DetermineRoute(file: string): (r: string)
    ensures r != []
  {
    RouteNames.DetermineRoute(file, PagesPath, [".pug"])
  }

  /** A page file `<pages>name.pug` with no `.` and no backslash in `name`
      names the route `name` under the index rule. */
  lemma PageFile(name: string)
    requires '.' !in name && '\\' !in name
    ensures DetermineRoute(PagesPath + name + ".pug") == RouteNames.IndexRule(name)
  {
    assert PagesPath + name + ".pug" == PagesPath + name + [".pug"][0] + "";
    assert name + "" == name;
    assert '\\' !in PagesPath;
    RouteNames.PlainFile(PagesPath, name, [".pug"], 0, "");
  }

  /** `index.pug` is the root page. */
  lemma IndexPageIsRoot()
    ensures DetermineRoute(PagesPath + "index.pug") == "/"
  {
    assert PagesPath + "index" + ".pug" == PagesPath + "index.pug";
    PageFile("index");
    RouteNames.IndexIsRoot();
  }

  /** `sub/index.pug` is the folder route `sub/`. */
  lemma SubfolderIndexPage()
    ensures DetermineRoute(PagesPath + "sub/index.pug") == "sub/"
  {
    assert PagesPath + "sub/index" + ".pug" == PagesPath + "sub/index.pug";
    PageFile("sub/index");
    RouteNames.SubfolderExample();
  }

  /** A page whose name does not end in `index` is served under `/name`. */
  lemma NamedPage(name: string)
    requires '.' !in name && '\\' !in name
    requires !EndsWith(name, "index")
    ensures DetermineRoute(PagesPath + name + ".pug") == "/" + name
  {
    PageFile(name);
  }

  /** A Windows path names the same route: backslashes become `/` before
      the pages directory is looked for. */
  lemma WindowsPath(file: string)
    ensures DetermineRoute(file) == DetermineRoute(RouteNames.Normalize(file))
  {
    RouteNames.SeparatorInsensitive(file, PagesPath, [".pug"]);
  }

  /** The `matchRoute(method, path, routes)` of src/server/routing/pages.ts,
      the router's code. */
  method MatchRoute<H>(verb: string, path: string, table: Router.Table<H>) returns (r: Option<Router.RouteMatch<H>>)
    requires Router.SafeTable(table)
    ensures r == Router.Dispatch(table, verb, path)
  {
    r := Router.MatchRoute(verb, path, table);
  }
}
