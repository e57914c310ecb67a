/**
 * The second server, src/server/server.ts: every API configuration's table is
 * created, then a flat route table keyed by path alone is filled with one
 * route per page file, the routes each configuration's flags ask for under
 * `/api/<entity>`, and finally `/`. Two writes to the same path keep the
 * later handler at the place of the earlier one. Handlers come from
 * src/server/service.ts. The directory scans and YAML parsing are not
 * modelled: the configuration files with their parsed contents and the page
 * files are inputs.
 */
module ApiServer {
  import opened Wrappers
  import opened Assoc
  import opened Schema
  import opened Http
  import Service
  import EntityHandler
  import PageRoutes
  import Init
  import Router

  /** The handlers are those of the newest server. */
  type Handler = Init.Handler

  /** `/api/<entity>`. */
  function CollectionPath(entity: string): string {
    "/api/" + entity
  }

  /** `/api/<entity>/:id`. */
  function ItemPath(entity: string): string {
    "/api/" + entity + "/:id"
  }

  /** The assignments one configuration asks for, in the order they run. */
  function ConfigWrites(c: ApiConfig): seq<(string, Handler)> {
    var e := c.model.table;
    Init.Maybe(c.routes.create, (CollectionPath(e), Init.EntityEndpoint("create", e)))
    + Init.Maybe(c.routes.readAll, (CollectionPath(e), Init.EntityEndpoint("readAll", e)))
    + Init.Maybe(c.routes.read, (ItemPath(e), Init.EntityEndpoint("read", e)))
    + Init.Maybe(c.routes.update, (ItemPath(e), Init.EntityEndpoint("update", e)))
    + Init.Maybe(c.routes.delete, (ItemPath(e), Init.EntityEndpoint("delete", e)))
  }

  /** The API assignments of the configuration files, file by file. */
  function ApiWrites(apis: seq<(string, ApiConfig)>): seq<(string, Handler)>
    decreases |apis|
  {
    if apis == [] then []
    else
      var n := |apis| - 1;
      ApiWrites(apis[..n]) + ConfigWrites(apis[n].1)
  }

  /** `routes[determineRoute(file)] = handlePugRendering(file)` per page. */
  function PageWrites(pages: seq<string>): (ws: seq<(string, Handler)>)
    ensures |ws| == |pages|
    ensures forall i :: 0 <= i < |pages| ==> ws[i] == (PageRoutes.DetermineRoute(pages[i]), Init.PageView(pages[i]))
  {
    seq(|pages|, i requires 0 <= i < |pages| => (PageRoutes.DetermineRoute(pages[i]), Init.PageView(pages[i])))
  }

  /** The table `main` ends with: pages, then API routes, then `/`. */
  function Routes(pages: seq<string>, apis: seq<(string, ApiConfig)>): Dict<Handler> {
    Put(ApplyAll([], PageWrites(pages) + ApiWrites(apis)), "/", Init.TodosHome)
  }

  lemma MaybeEffect(d: Dict<Handler>, flag: bool, w: (string, Handler), k: string)
    ensures ApplyAll(d, Init.Maybe(flag, w)) == if flag then Put(d, w.0, w.1) else d
    ensures Lookup(ApplyAll(d, Init.Maybe(flag, w)), k) == if flag && k == w.0 then Some(w.1) else Lookup(d, k)
  {
    if flag {
      assert [w][..0] == [];
    }
  }

  /** The flag tests of one configuration file, on the table built so far. */
  method AddConfigRoutes(routes: Dict<Handler>, config: ApiConfig) returns (r: Dict<Handler>)
    ensures r == ApplyAll(routes, ConfigWrites(config))
  {
    var entity := config.model.table;
    var f := config.routes;
    var w1, w2 := (CollectionPath(entity), Init.EntityEndpoint("create", entity)), (CollectionPath(entity), Init.EntityEndpoint("readAll", entity));
    var w3, w4 := (ItemPath(entity), Init.EntityEndpoint("read", entity)), (ItemPath(entity), Init.EntityEndpoint("update", entity));
    var w5 := (ItemPath(entity), Init.EntityEndpoint("delete", entity));
    r := routes;
    if f.create { r := Put(r, w1.0, w1.1); }
    MaybeEffect(routes, f.create, w1, "");
    ghost var ws := Init.Maybe(f.create, w1);
    if f.readAll { r := Put(r, w2.0, w2.1); }
    MaybeEffect(ApplyAll(routes, ws), f.readAll, w2, "");
    ApplyAllAppend(routes, ws, Init.Maybe(f.readAll, w2));
    ws := ws + Init.Maybe(f.readAll, w2);
    if f.read { r := Put(r, w3.0, w3.1); }
    MaybeEffect(ApplyAll(routes, ws), f.read, w3, "");
    ApplyAllAppend(routes, ws, Init.Maybe(f.read, w3));
    ws := ws + Init.Maybe(f.read, w3);
    if f.update { r := Put(r, w4.0, w4.1); }
    MaybeEffect(ApplyAll(routes, ws), f.update, w4, "");
    ApplyAllAppend(routes, ws, Init.Maybe(f.update, w4));
    ws := ws + Init.Maybe(f.update, w4);
    if f.delete { r := Put(r, w5.0, w5.1); }
    MaybeEffect(ApplyAll(routes, ws), f.delete, w5, "");
    ApplyAllAppend(routes, ws, Init.Maybe(f.delete, w5));
  }

  /** The page loop. */
  method AddPageRoutes(pages: seq<string>) returns (routes: Dict<Handler>)
    ensures routes == ApplyAll([], PageWrites(pages))
  {
    routes := [];
    for i := 0 to |pages|
      invariant routes == ApplyAll([], PageWrites(pages)[..i])
    {
      ApplyAllPrefix([], PageWrites(pages), i);
      var routePath := PageRoutes.DetermineRoute(pages[i]);
      routes := Put(routes, routePath, Init.PageView(pages[i]));
    }
    assert PageWrites(pages)[..|pages|] == PageWrites(pages);
  }

  /** The configuration loop, on the table built so far. */
  method AddApiRoutes(routes: Dict<Handler>, apis: seq<(string, ApiConfig)>) returns (r: Dict<Handler>)
    ensures r == ApplyAll(routes, ApiWrites(apis))
  {
    r := routes;
    for j := 0 to |apis|
      invariant r == ApplyAll(routes, ApiWrites(apis[..j]))
    {
      r := AddConfigRoutes(r, apis[j].1);
      assert apis[..j + 1][..j] == apis[..j];
      ApplyAllAppend(routes, ApiWrites(apis[..j]), ConfigWrites(apis[j].1));
    }
    assert apis[..|apis|] == apis;
  }

  /** `main` up to serving: the tables are created, then the routes built. A
      rejected `CREATE TABLE` makes `main` throw before any route exists, so
      there is no table to serve. */
  method Assemble(db: Database, pages: seq<string>, apis: seq<(string, ApiConfig)>, answers: seq<Answer>)
    returns (routes: Option<Dict<Handler>>)
    requires |answers| == |apis|
    modifies db
    ensures db.executed == old(db.executed) + Init.TableStatements(apis[..Init.Attempted(answers)])
    ensures routes.Some? <==> Init.Created(answers) == |apis|
    ensures routes.Some? ==> routes.value == Routes(pages, apis)
  {
    var created := Init.CreateDatabase(db, apis, answers);
    if !created {
      return None;
    }
    var r := AddPageRoutes(pages);
    r := AddApiRoutes(r, apis);
    ApplyAllAppend([], PageWrites(pages), ApiWrites(apis));
    r := Put(r, "/", Init.TodosHome);
    return Some(r);
  }

  /** A configuration's writes reach only its two paths: on the collection
      path `readAll` beats `create`, on the item path `delete` beats `update`
      beats `read`, and a path left unwritten keeps its handler. */
  lemma ConfigPaths(d: Dict<Handler>, c: ApiConfig, k: string)
    ensures var e := c.model.table;
            Lookup(ApplyAll(d, ConfigWrites(c)), k)
            == if k == CollectionPath(e) && c.routes.readAll then Some(Init.EntityEndpoint("readAll", e))
               else if k == CollectionPath(e) && c.routes.create then Some(Init.EntityEndpoint("create", e))
               else if k == ItemPath(e) && c.routes.delete then Some(Init.EntityEndpoint("delete", e))
               else if k == ItemPath(e) && c.routes.update then Some(Init.EntityEndpoint("update", e))
               else if k == ItemPath(e) && c.routes.read then Some(Init.EntityEndpoint("read", e))
               else Lookup(d, k)
  {
    var e := c.model.table;
    assert CollectionPath(e) != ItemPath(e) by {
      assert |CollectionPath(e)| != |ItemPath(e)|;
    }
    var w1 := Init.Maybe(c.routes.create, (CollectionPath(e), Init.EntityEndpoint("create", e)));
    var w2 := Init.Maybe(c.routes.readAll, (CollectionPath(e), Init.EntityEndpoint("readAll", e)));
    var w3 := Init.Maybe(c.routes.read, (ItemPath(e), Init.EntityEndpoint("read", e)));
    var w4 := Init.Maybe(c.routes.update, (ItemPath(e), Init.EntityEndpoint("update", e)));
    var w5 := Init.Maybe(c.routes.delete, (ItemPath(e), Init.EntityEndpoint("delete", e)));
    ApplyAllAppend(d, w1, w2);
    ApplyAllAppend(d, w1 + w2, w3);
    ApplyAllAppend(d, w1 + w2 + w3, w4);
    ApplyAllAppend(d, w1 + w2 + w3 + w4, w5);
    var d1 := ApplyAll(d, w1);
    var d2 := ApplyAll(d1, w2);
    var d3 := ApplyAll(d2, w3);
    var d4 := ApplyAll(d3, w4);
    MaybeEffect(d, c.routes.create, (CollectionPath(e), Init.EntityEndpoint("create", e)), k);
    MaybeEffect(d1, c.routes.readAll, (CollectionPath(e), Init.EntityEndpoint("readAll", e)), k);
    MaybeEffect(d2, c.routes.read, (ItemPath(e), Init.EntityEndpoint("read", e)), k);
    MaybeEffect(d3, c.routes.update, (ItemPath(e), Init.EntityEndpoint("update", e)), k);
    MaybeEffect(d4, c.routes.delete, (ItemPath(e), Init.EntityEndpoint("delete", e)), k);
  }

  /** `/` always ends up as the todo listing, whatever a page put there; the
      paths appear once each, the page paths first in scan order, and `/`
      keeps a page's place or comes last. */
  lemma RouteOrder(pages: seq<string>, apis: seq<(string, ApiConfig)>)
    ensures Lookup(Routes(pages, apis), "/") == Some(Init.TodosHome)
    ensures DistinctKeys(Routes(pages, apis))
    ensures Keys(ApplyAll([], PageWrites(pages))) <= Keys(Routes(pages, apis))
    ensures var built := ApplyAll([], PageWrites(pages) + ApiWrites(apis));
            Keys(Routes(pages, apis)) == if "/" in Keys(built) then Keys(built) else Keys(built) + ["/"]
    ensures Keys(ApplyAll([], PageWrites(pages) + ApiWrites(apis)))
            == FirstOccurrences(Keys(PageWrites(pages) + ApiWrites(apis)))
  {
    ApplyAllKeyOrder(PageWrites(pages) + ApiWrites(apis));
    var ps := PageWrites(pages);
    var built := ApplyAll([], ps + ApiWrites(apis));
    ApplyAllAppend([], ps, ApiWrites(apis));
    ApplyAllKeepsOrder(ApplyAll([], ps), ApiWrites(apis));
    ApplyAllKeepsOrder([], ps + ApiWrites(apis));
    assert DistinctKeys<Handler>([]);
    PutKeys(built, "/", Init.TodosHome);
  }

  /** Calling a handler with the request and the parameters the matcher
      bound: the collection handlers pass no id, the item handlers
      `params?.id`. A page answers its file and touches no storage, the `/`
      handler selects every todo, and only an entity handler answers
      anything but 200. */
  function Invoke(h: Handler, req: Request, params: map<string, string>, answer: Answer): (r: EntityHandler.Outcome)
    ensures h.PageView? ==> r.stmt.None? && r.reply == Some(Response(200, Page(h.file, NoData)))
    ensures h.TodosHome? ==> r.stmt == Some(Statement(EntityHandler.SelectAllSql("todos"), []))
    ensures r.reply.Some? && r.reply.value.status != 200 ==> h.EntityEndpoint?
    ensures h.EntityEndpoint? && (h.action == "create" || h.action == "readAll") ==>
              r == Service.Handled(Some(req), h.action, h.entity, None, answer)
    ensures h.EntityEndpoint? && h.action != "create" && h.action != "readAll" ==>
              r == Service.Handled(Some(req), h.action, h.entity, Init.ParamId(params), answer)
  {
    match h
    case PageView(file) => EntityHandler.Outcome(None, Some(Response(200, Page(file, NoData))))
    case EntityEndpoint(action, entity) =>
      var id := if action == "create" || action == "readAll" then None else Init.ParamId(params);
      Service.Handled(Some(req), action, entity, id, answer)
    case TodosHome =>
      var listing := Service.Handled(None, "readAll", "todos", None, answer);
      EntityHandler.Outcome(listing.stmt, Init.HomeReply(listing.reply, PageRoutes.PagesPath + "index.pug"))
  }

  /** The `/` handler selects every todo and renders the index page with the
      rows, or rejects when storage throws: its 500 branch is never taken. */
  lemma HomeNever500(req: Request, params: map<string, string>, answer: Answer)
    ensures Invoke(Init.TodosHome, req, params, answer).stmt == Some(Statement(EntityHandler.SelectAllSql("todos"), []))
    ensures Invoke(Init.TodosHome, req, params, answer).reply
            == match answer
               case Throws => None
               case Rows(rs) => Some(Response(200, Page(PageRoutes.PagesPath + "index.pug", Todos(rs))))
  {
    Service.AgreesWithLater(None, "readAll", "todos", None, answer);
    if answer.Rows? {
      EntityHandler.ReadAllIsOk(None, "todos", None, answer.rows);
    }
  }

  /** What the route table reads as where a string is expected. */
  const TableAsText := "[object Object]"

  /** The `fetch` handler as written: `matchRoute(url.pathname, routes)`
      passes the path where the method goes, the table where the path goes,
      and nothing for the table itself. A `for…in` over `undefined` visits no
      route, so every request is answered 404 and no handler is reached,
      whatever the table holds. */
  method Fetch(routes: Dict<Handler>, req: Request) returns (r: Response)
    ensures r == Response(404, Text("Not Found"))
  {
    var none: Router.Table<Handler> := [];
    var m := PageRoutes.MatchRoute(req.path, TableAsText, none);
    assert m.None?;
    r := Response(404, Text("Not Found"));
  }

  /** Collection handlers answer the same whatever parameters they get. */
  lemma CollectionIgnoresParams(action: string, entity: string, req: Request, p1: map<string, string>,
                                p2: map<string, string>, answer: Answer)
    requires action == "create" || action == "readAll"
    ensures Invoke(Init.EntityEndpoint(action, entity), req, p1, answer) == Invoke(Init.EntityEndpoint(action, entity), req, p2, answer)
    ensures Invoke(Init.EntityEndpoint(action, entity), req, p1, answer) == Service.Handled(Some(req), action, entity, None, answer)
  {
  }
}
