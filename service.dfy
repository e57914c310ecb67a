/**
 * The entity handler of src/server/service.ts. Its `initDatabaseFromConfig`
 * is the same code as in src/server/logic/database.ts (module
 * EntityHandler). Its `handleEntityRequest` returns from every case and does
 * not test the request: `create` and `update` read the form of whatever
 * request they get, so a missing request makes the call reject before any
 * statement is issued, where the later copy answers 400 `Bad Request`. A
 * body that is not form data makes both copies reject the same way.
 */
module Service {
  import opened Wrappers
  import opened Assoc
  import opened Http
  import opened EntityHandler
  import opened Schema

  /** `handleEntityRequest(req, action, entity, id)` given storage's answer;
      a missing request is `null`. */
  function Handled(req: Option<Request>, action: string, table: string, id: Option<string>, answer: Answer): Outcome {
    if action == "create" then
      match req
      case None => Outcome(None, None)
      case Some(r) =>
        match r.form
        case None => Outcome(None, None)
        case Some(form) =>
          var values := FormValues(form);
          Outcome(Some(Statement(InsertSql(table, Keys(values)), Bound(Values(values)))),
                  AfterRun(answer, Response(201, Text("Entity created"))))
    else if action == "readAll" then
      Outcome(Some(Statement(SelectAllSql(table), [])),
              match answer
              case Throws => None
              case Rows(rs) => Some(Response(200, JsonRows(rs))))
    else if action == "read" then
      Outcome(Some(Statement(SelectByIdSql(table), [id])),
              match answer
              case Throws => None
              case Rows(rs) => if rs != [] then Some(Response(200, JsonRow(rs[0]))) else Some(NotFound))
    else if action == "update" then
      match req
      case None => Outcome(None, None)
      case Some(r) =>
        if r.form.None? then Outcome(None, None)
        else
          var props := r.ownProps;
          Outcome(Some(Statement(UpdateSql(table, Keys(props)), Bound(Values(props)) + [id])),
                  AfterRun(answer, Response(200, Text("Entity updated"))))
    else if action == "delete" then
      Outcome(Some(Statement(DeleteSql(table), [id])), AfterRun(answer, Response(200, Text("Entity deleted"))))
    else Outcome(None, Some(NotSupported))
  }

  /** `handleEntityRequest(req, action, entity, id)`. */
  method HandleEntityRequest(db: Database, req: Option<Request>, action: string, entity: string,
                             id: Option<string>, answer: Answer)
    returns (reply: Option<Response>)
    modifies db
    ensures reply == Handled(req, action, entity, id, answer).reply
    ensures db.executed == old(db.executed) + Issued(Handled(req, action, entity, id, answer))
  {
    var table := entity;
    if action == "create" {
      if req.None? || req.value.form.None? { return None; }
      var values := FormValues(req.value.form.value);
      db.executed := db.executed + [Statement(InsertSql(table, Keys(values)), Bound(Values(values)))];
      if answer.Throws? { return None; }
      return Some(Response(201, Text("Entity created")));
    } else if action == "readAll" {
      db.executed := db.executed + [Statement(SelectAllSql(table), [])];
      if answer.Throws? { return None; }
      return Some(Response(200, JsonRows(answer.rows)));
    } else if action == "read" {
      db.executed := db.executed + [Statement(SelectByIdSql(table), [id])];
      if answer.Throws? { return None; }
      if answer.rows != [] {
        return Some(Response(200, JsonRow(answer.rows[0])));
      }
      return Some(NotFound);
    } else if action == "update" {
      if req.None? || req.value.form.None? { return None; }
      var props := req.value.ownProps;
      db.executed := db.executed + [Statement(UpdateSql(table, Keys(props)), Bound(Values(props)) + [id])];
      if answer.Throws? { return None; }
      return Some(Response(200, Text("Entity updated")));
    } else if action == "delete" {
      db.executed := db.executed + [Statement(DeleteSql(table), [id])];
      if answer.Throws? { return None; }
      return Some(Response(200, Text("Entity deleted")));
    } else {
      return Some(NotSupported);
    }
  }

  /** With a request, or for an action that does not read one, this copy
      issues and answers exactly what the later copy does. */
  lemma AgreesWithLater(req: Option<Request>, action: string, table: string, id: Option<string>, answer: Answer)
    requires req.Some? || (action != "create" && action != "update")
    ensures Handled(req, action, table, id, answer) == EntityHandler.Handled(req, action, table, id, answer)
  {
  }

  /** Every case returns, so nothing is ever answered `Bad Request`: without
      a request, `create` and `update` reject and issue nothing, where the
      later copy answers 400. */
  lemma NoBadRequest(req: Option<Request>, action: string, table: string, id: Option<string>, answer: Answer)
    ensures Handled(req, action, table, id, answer).reply != Some(BadRequest)
    ensures req.None? && (action == "create" || action == "update") ==>
              Handled(req, action, table, id, answer) == Outcome(None, None)
              && EntityHandler.Handled(req, action, table, id, answer) == Outcome(None, Some(BadRequest))
  {
    if req.Some? || (action != "create" && action != "update") {
      AgreesWithLater(req, action, table, id, answer);
      if action == "create" || action == "update" {
        assert Handled(req, action, table, id, answer).reply.Some? ==>
                 Handled(req, action, table, id, answer).reply.value.status in {200, 201};
      }
    }
  }

  /** The file's `initDatabaseFromConfig(config)`, the same code as the later
      copy. */
  method InitDatabaseFromConfig(db: Database, config: ApiConfig, answer: Answer) returns (ok: bool)
    modifies db
    ensures db.executed == old(db.executed) + [Statement(CreateTableSql(config.model), [])]
    ensures ok <==> answer.Rows?
  {
    ok := EntityHandler.InitDatabaseFromConfig(db, config, answer);
  }
}
