/**
 * `determineApiRoute` of src/server/requests/database.ts: backslashes become
 * `/`, the first occurrence of the endpoints directory and the first `.yaml`
 * are removed, and the result is always prefixed with `/`; unlike
 * `determineRoute` there is no `index` rule. The endpoints directory is
 * imported from a module that does not export it, so it is a parameter. The
 * file's `initDatabaseFromConfig` and `handleEntityRequest` are the same code
 * as in src/server/logic/database.ts (module EntityHandler).
 */
module RequestsDatabase {
  import opened Strings
  import RouteNames
  import LogicRoutes
  import opened Wrappers
  import opened Schema
  import opened Http
  import EntityHandler

  /** `determineApiRoute(file)` with `ENDPOINTS_PROJECT_PATH == endpoints`. */
  function DetermineApiRoute(file: string, endpoints: string): (r: string)
    ensures r != [] && r[0] == '/'
    ensures r[1..] == RouteNames.Stripped(file, endpoints, [".yaml"])
  {
    "/" + RouteNames.Stripped(file, endpoints, [".yaml"])
  }

  /** A configuration file `endpoints + name + .yaml + tail` with no `.` in
      `name` is served under `/name + tail`, with no special case. */
  lemma ApiFile(endpoints: string, name: string, tail: string)
    requires '.' !in name
    requires '\\' !in endpoints + name + ".yaml" + tail
    ensures DetermineApiRoute(endpoints + name + ".yaml" + tail, endpoints) == "/" + name + tail
  {
    assert [".yaml"][0] == ".yaml";
    RouteNames.PlainFile(endpoints, name, [".yaml"], 0, tail);
  }

  /** `index.yaml` is served under `/index`, where `determineRoute` of
      src/server/logic/routes.ts names the same file `/`. */
  lemma IndexNotSpecial(endpoints: string)
    requires '\\' !in endpoints
    ensures DetermineApiRoute(endpoints + "index.yaml", endpoints) == "/index"
    ensures LogicRoutes.DetermineRoute(endpoints + "index.yaml", endpoints) == "/"
  {
    assert endpoints + "index.yaml" == endpoints + "index" + ".yaml" + "";
    assert "/" + "index" + "" == "/index";
    ApiFile(endpoints, "index", "");
    LogicRoutes.IndexConfigIsRoot(endpoints);
  }

  /** The file's `initDatabaseFromConfig(config)`, the same code as the later
      copy. */
  method InitDatabaseFromConfig(db: Database, config: ApiConfig, answer: Answer) returns (ok: bool)
    modifies db
    ensures db.executed == old(db.executed) + [Statement(CreateTableSql(config.model), [])]
    ensures ok <==> answer.Rows?
  {
    ok := EntityHandler.InitDatabaseFromConfig(db, config, answer);
  }

  /** The file's `handleEntityRequest(req, action, entity, id)`, the same code
      as the later copy: a missing request answers `Bad Request`. */
  method HandleEntityRequest(db: Database, req: Option<Request>, action: string, entity: string,
                             id: Option<string>, answer: Answer)
    returns (reply: Option<Response>)
    modifies db
    ensures reply == EntityHandler.Handled(req, action, entity, id, answer).reply
    ensures db.executed == old(db.executed) + EntityHandler.Issued(EntityHandler.Handled(req, action, entity, id, answer))
  {
    reply := EntityHandler.HandleEntityRequest(db, req, action, entity, id, answer);
  }
}
