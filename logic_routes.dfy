/**
 * `determineRoute` of src/server/logic/routes.ts: the shared route-name rule
 * with the endpoints directory as base and the regular expression
 * `/\.(pug|yaml|yml)/` as extension, which removes the leftmost of the three
 * extensions, `.pug` before `.yaml` before `.yml` at the same position. The
 * endpoints directory comes from a module that is not part of this model, so
 * it is a parameter. The file's `matchRoute` is the same code as the router's
 * (module Router).
 */
module LogicRoutes {
  import opened Strings
  import RouteNames
  import opened Wrappers
  import Router

  const Extensions: seq<string> := [".pug", ".yaml", ".yml"]

  /** `determineRoute(file)` with `ENDPOINTS_PROJECT_PATH == endpoints`. */
  function DetermineRoute(file: string, endpoints: string): (r: string)
    ensures r != []
  {
    RouteNames.DetermineRoute(file, endpoints, Extensions)
  }

  /** No extension of the list starts another one listed before it, so the
      extension written right after the name is the one removed. */
  lemma ExtensionsDistinct(k: nat, tail: string)
    requires k < |Extensions|
    ensures forall k' :: 0 <= k' < |Extensions| ==> Extensions[k'] != [] && Extensions[k'][0] == '.'
    ensures forall k' :: 0 <= k' < k ==> !StartsWith(Extensions[k] + tail, Extensions[k'])
  {
    forall k' | 0 <= k' < k ensures !StartsWith(Extensions[k] + tail, Extensions[k']) {
      var s := Extensions[k] + tail;
      var e := Extensions[k'];
      if k' == 0 {
        assert s[1] == 'y' && e[1] == 'p';
        assert |e| <= |s| ==> s[..|e|][1] == s[1];
      } else {
        assert k == 2 && s[2] == 'm' && e[2] == 'a';
        assert |e| <= |s| ==> s[..|e|][2] == s[2];
      }
    }
  }

  /** A file `endpoints + name + ext + tail`, with `ext` one of the three
      extensions and no `.` in `name`, names the route `name + tail` under
      the index rule: the endpoints prefix and the extension right after
      the name go, and anything later stays. */
  lemma ConfigFile(endpoints: string, name: string, k: nat, tail: string)
    requires k < |Extensions|
    requires '.' !in name
    requires '\\' !in endpoints + name + Extensions[k] + tail
    ensures DetermineRoute(endpoints + name + Extensions[k] + tail, endpoints) == RouteNames.IndexRule(name + tail)
  {
    ExtensionsDistinct(k, tail);
    RouteNames.PlainFile(endpoints, name, Extensions, k, tail);
  }

  /** `<endpoints>index.yaml` names the root. */
  lemma IndexConfigIsRoot(endpoints: string)
    requires '\\' !in endpoints
    ensures DetermineRoute(endpoints + "index.yaml", endpoints) == "/"
  {
    assert endpoints + "index.yaml" == endpoints + "index" + Extensions[1] + "";
    assert "index" + "" == "index";
    ConfigFile(endpoints, "index", 1, "");
    RouteNames.IndexIsRoot();
  }

  /** `<endpoints>index.pug` names the root as well. */
  lemma IndexPageIsRoot(endpoints: string)
    requires '\\' !in endpoints
    ensures DetermineRoute(endpoints + "index.pug", endpoints) == "/"
  {
    assert endpoints + "index.pug" == endpoints + "index" + Extensions[0] + "";
    assert "index" + "" == "index";
    ConfigFile(endpoints, "index", 0, "");
    RouteNames.IndexIsRoot();
  }

  /** The file's `matchRoute(method, path, routes)`, the router's code. */
  method MatchRoute<H>(verb: string, path: string, table: Router.Table<H>) returns (r: Option<Router.RouteMatch<H>>)
    requires Router.SafeTable(table)
    ensures r == Router.Dispatch(table, verb, path)
  {
    r := Router.MatchRoute(verb, path, table);
  }
}
