/**
 * The generic entity handler of src/server/logic/database.ts: table creation
 * from a configuration, the statement and response for each action, and the
 * `fetchData` collection of listings. Storage is not modelled: the answer
 * storage gives to the issued statement is an input. A thrown storage error
 * rejects the handler's promise, which is a missing reply here.
 */
module EntityHandler {
  import opened Wrappers
  import opened Strings
  import opened Assoc
  import opened Schema
  import opened Http

  /** The statement a call issues, if any, and the response it resolves to,
      if it does not reject. */
  datatype Outcome = Outcome(stmt: Option<Statement>, reply: Option<Response>)

  /** `Object.fromEntries(formData.entries())`: one key per submitted name,
      in first-submission order, holding the last submitted value. */
  function FormValues(form: seq<(string, string)>): (v: Dict<string>)
    ensures DistinctKeys(v)
    ensures Keys(v) == FirstOccurrences(Keys(form))
  {
    ApplyAllKeepsOrder([], form);
    ApplyAllKeyOrder(form);
    ApplyAll([], form)
  }

  function Placeholders(n: nat): (ps: seq<string>)
    ensures |ps| == n && forall i :: 0 <= i < n ==> ps[i] == "?"
  {
    seq(n, _ => "?")
  }

  function Assignments(keys: seq<string>): (xs: seq<string>)
    ensures |xs| == |keys| && forall i :: 0 <= i < |keys| ==> xs[i] == keys[i] + " = ?"
  {
    seq(|keys|, i requires 0 <= i < |keys| => keys[i] + " = ?")
  }

  function Bound(vals: seq<string>): (ps: seq<Option<string>>)
    ensures |ps| == |vals| && forall i :: 0 <= i < |vals| ==> ps[i] == Some(vals[i])
  {
    seq(|vals|, i requires 0 <= i < |vals| => Some(vals[i]))
  }

  function InsertSql(table: string, columns: seq<string>): string {
    "INSERT INTO " + table + " (" + Join(columns, ", ") + ") VALUES ("
      + Join(Placeholders(|columns|), ", ") + ")"
  }

  function UpdateSql(table: string, keys: seq<string>): string {
    "UPDATE " + table + " SET " + Join(Assignments(keys), ", ") + " WHERE id = ?"
  }

  function SelectAllSql(table: string): string {
    "SELECT * FROM " + table
  }

  function SelectByIdSql(table: string): string {
    "SELECT * FROM " + table + " WHERE id = ?"
  }

  function DeleteSql(table: string): string {
    "DELETE FROM " + table + " WHERE id = ?"
  }

  const BadRequest := Response(400, Text("Bad Request"))
  const NotSupported := Response(400, Text("Action not supported"))
  const NotFound := Response(404, Text("Entity not found"))

  /** The reply of a statement that is only run: the given response, unless
      storage threw. */
  function AfterRun(answer: Answer, r: Response): Option<Response> {
    if answer.Throws? then None else Some(r)
  }

  /** A `create` or `update` whose request body `req.formData()` cannot read:
      the awaited call rejects before any statement is prepared. */
  predicate UnreadableBody(req: Option<Request>, action: string) {
    (action == "create" || action == "update") && req.Some? && req.value.form.None?
  }

  /** `handleEntityRequest(req, action, entity, id)` given storage's answer. */
  function Handled(req: Option<Request>, action: string, table: string, id: Option<string>, answer: Answer): Outcome {
    if action == "create" then
      if req.Some? then
        match req.value.form
        case None => Outcome(None, None)
        case Some(form) =>
          var values := FormValues(form);
          Outcome(Some(Statement(InsertSql(table, Keys(values)), Bound(Values(values)))),
                  AfterRun(answer, Response(201, Text("Entity created"))))
      else Outcome(None, Some(BadRequest))
    else if action == "readAll" then
      Outcome(Some(Statement(SelectAllSql(table), [])),
              match answer
              case Throws => None
              case Rows(rs) => Some(Response(200, JsonRows(rs))))
    else if action == "read" then
      Outcome(Some(Statement(SelectByIdSql(table), [id])),
              match answer
              case Throws => None
              case Rows(rs) => if rs != [] then Some(Response(200, JsonRow(rs[0]))) else Some(NotFound))
    else if action == "update" then
      if req.Some? then
        if req.value.form.None? then Outcome(None, None)
        else
          var props := req.value.ownProps;
          Outcome(Some(Statement(UpdateSql(table, Keys(props)), Bound(Values(props)) + [id])),
                  AfterRun(answer, Response(200, Text("Entity updated"))))
      else Outcome(None, Some(BadRequest))
    else if action == "delete" then
      Outcome(Some(Statement(DeleteSql(table), [id])), AfterRun(answer, Response(200, Text("Entity deleted"))))
    else Outcome(None, Some(NotSupported))
  }

  function Issued(o: Outcome): seq<Statement> {
    if o.stmt.Some? then [o.stmt.value] else []
  }

  /** `initDatabaseFromConfig(config)`, given storage's answer to the
      `CREATE TABLE` statement: `ok` is false when `db.run` throws, and the
      call then throws too. */
  method InitDatabaseFromConfig(db: Database, config: ApiConfig, answer: Answer) returns (ok: bool)
    modifies db
    ensures db.executed == old(db.executed) + [Statement(CreateTableSql(config.model), [])]
    ensures ok <==> answer.Rows?
  {
    var table := config.model.table;
    var fields := ColumnDefs(config.model.fields);
    db.executed := db.executed + [Statement(CreatePrefix + table + " (" + fields + ");", [])];
    ok := !answer.Throws?;
  }

  /** `handleEntityRequest(req, action, entity, id)`. */
  method HandleEntityRequest(db: Database, req: Option<Request>, action: string, entity: string,
                             id: Option<string>, answer: Answer)
    returns (reply: Option<Response>)
    modifies db
    ensures reply == Handled(req, action, entity, id, answer).reply
    ensures db.executed == old(db.executed) + Issued(Handled(req, action, entity, id, answer))
  {
    var table := entity;
    if action == "create" {
      if req.Some? {
        if req.value.form.None? { return None; }
        var values := FormValues(req.value.form.value);
        db.executed := db.executed + [Statement(InsertSql(table, Keys(values)), Bound(Values(values)))];
        if answer.Throws? { return None; }
        return Some(Response(201, Text("Entity created")));
      }
    } else if action == "readAll" {
      db.executed := db.executed + [Statement(SelectAllSql(table), [])];
      if answer.Throws? { return None; }
      return Some(Response(200, JsonRows(answer.rows)));
    } else if action == "read" {
      db.executed := db.executed + [Statement(SelectByIdSql(table), [id])];
      if answer.Throws? { return None; }
      if answer.rows != [] {
        return Some(Response(200, JsonRow(answer.rows[0])));
      }
      return Some(NotFound);
    } else if action == "update" {
      if req.Some? {
        if req.value.form.None? { return None; }
        var props := req.value.ownProps;
        db.executed := db.executed + [Statement(UpdateSql(table, Keys(props)), Bound(Values(props)) + [id])];
        if answer.Throws? { return None; }
        return Some(Response(200, Text("Entity updated")));
      }
    } else if action == "delete" {
      db.executed := db.executed + [Statement(DeleteSql(table), [id])];
      if answer.Throws? { return None; }
      return Some(Response(200, Text("Entity deleted")));
    } else {
      return Some(NotSupported);
    }
    return Some(BadRequest);
  }

  /** A call rejects exactly when `create` or `update` cannot read the
      request body, which issues nothing, or when it issued a statement and
      storage threw; every reply carries one of the four statuses. */
  lemma RejectionCauses(req: Option<Request>, action: string, table: string, id: Option<string>, answer: Answer)
    ensures var o := Handled(req, action, table, id, answer);
            o.reply.None? <==> UnreadableBody(req, action) || (o.stmt.Some? && answer.Throws?)
    ensures UnreadableBody(req, action) ==> Handled(req, action, table, id, answer).stmt.None?
    ensures Handled(req, action, table, id, answer).reply.Some? ==>
              Handled(req, action, table, id, answer).reply.value.status in {200, 201, 400, 404}
  {
  }

  /** `create` inserts one column per submitted name, in first-submission
      order, binds each column's value in the same order and answers 201. */
  lemma CreateStatement(req: Request, form: seq<(string, string)>, table: string, id: Option<string>, answer: Answer)
    requires req.form == Some(form)
    ensures var o := Handled(Some(req), "create", table, id, answer);
            var values := FormValues(form);
            && o.stmt.Some?
            && o.stmt.value.sql == InsertSql(table, Keys(values))
            && |o.stmt.value.params| == |Keys(values)|
            && (forall j :: 0 <= j < |Keys(values)| ==> o.stmt.value.params[j] == Lookup(values, Keys(values)[j]))
            && (forall k :: k in Keys(values) <==> exists i :: 0 <= i < |form| && form[i].0 == k)
            && o.reply == AfterRun(answer, Response(201, Text("Entity created")))
  {
    var values := FormValues(form);
    forall j | 0 <= j < |Keys(values)| ensures Some(Values(values)[j]) == Lookup(values, Keys(values)[j]) {
      LookupAt(values, j);
    }
    forall k ensures k in Keys(values) <==> exists i :: 0 <= i < |form| && form[i].0 == k {
      if k in Keys(values) {
        ApplyAllKeyOrigin([], form, k);
      }
      if exists i :: 0 <= i < |form| && form[i].0 == k {
        var i :| 0 <= i < |form| && form[i].0 == k;
        LastWriteOf(form, i);
      }
    }
  }

  /** For a name submitted several times, the last value is inserted. */
  lemma CreateBindsLastValue(form: seq<(string, string)>, i: nat)
    requires i < |form|
    requires forall j :: i < j < |form| ==> form[j].0 != form[i].0
    ensures Lookup(FormValues(form), form[i].0) == Some(form[i].1)
  {
    ApplyAllLast([], form, i);
  }

  /** Some write to key `form[i].0` is the last one, and it decides the value. */
  lemma LastWriteOf(form: seq<(string, string)>, i: nat)
    requires i < |form|
    ensures form[i].0 in Keys(FormValues(form))
    decreases |form| - i
  {
    if exists j :: i < j < |form| && form[j].0 == form[i].0 {
      var j :| i < j < |form| && form[j].0 == form[i].0;
      LastWriteOf(form, j);
    } else {
      ApplyAllLast([], form, i);
    }
  }

  /** `create` and `update` on a null request issue nothing and answer
      400 "Bad Request". */
  lemma NullRequestIsBadRequest(action: string, table: string, id: Option<string>, answer: Answer)
    requires action == "create" || action == "update"
    ensures Handled(None, action, table, id, answer) == Outcome(None, Some(Response(400, Text("Bad Request"))))
  {
  }

  /** `read` looks the id up and answers the first row it yields with 200,
      or 404 "Entity not found" when it yields none. */
  lemma ReadReply(req: Option<Request>, table: string, id: Option<string>, rows: seq<Row>)
    ensures Handled(req, "read", table, id, Rows(rows)).stmt == Some(Statement(SelectByIdSql(table), [id]))
    ensures Handled(req, "read", table, id, Rows(rows)).reply.value.status == 200 <==> rows != []
    ensures rows != [] ==> Handled(req, "read", table, id, Rows(rows)).reply == Some(Response(200, JsonRow(rows[0])))
    ensures rows == [] ==> Handled(req, "read", table, id, Rows(rows)).reply == Some(Response(404, Text("Entity not found")))
  {
  }

  /** `readAll` answers 200 with every row whenever storage does not throw. */
  lemma ReadAllIsOk(req: Option<Request>, table: string, id: Option<string>, rows: seq<Row>)
    ensures Handled(req, "readAll", table, id, Rows(rows)).reply == Some(Response(200, JsonRows(rows)))
    ensures Ok(Handled(req, "readAll", table, id, Rows(rows)).reply.value)
  {
  }

  /** `update` with a readable body sets one column per own property and
      binds the id after the property values; it answers 200 whether or not a
      row has that id. An unreadable body rejects with nothing issued. */
  lemma UpdateBindsIdLast(req: Request, table: string, id: Option<string>, rows: seq<Row>)
    ensures req.form.None? ==> Handled(Some(req), "update", table, id, Rows(rows)) == Outcome(None, None)
    ensures var o := Handled(Some(req), "update", table, id, Rows(rows));
            req.form.Some? ==>
            && o.stmt.Some?
            && o.stmt.value.sql == UpdateSql(table, Keys(req.ownProps))
            && |o.stmt.value.params| == |req.ownProps| + 1
            && o.stmt.value.params[|req.ownProps|] == id
            && (forall j :: 0 <= j < |req.ownProps| ==> o.stmt.value.params[j] == Some(req.ownProps[j].1))
            && o.reply == Some(Response(200, Text("Entity updated")))
  {
  }

  /** `delete` answers 200 whether or not a row has that id. */
  lemma DeleteIsOk(req: Option<Request>, table: string, id: Option<string>, rows: seq<Row>)
    ensures Handled(req, "delete", table, id, Rows(rows))
            == Outcome(Some(Statement(DeleteSql(table), [id])), Some(Response(200, Text("Entity deleted"))))
  {
  }

  /** Any other action issues nothing and answers 400 "Action not supported". */
  lemma UnknownAction(req: Option<Request>, action: string, table: string, id: Option<string>, answer: Answer)
    requires action !in {"create", "readAll", "read", "update", "delete"}
    ensures Handled(req, action, table, id, answer) == Outcome(None, Some(Response(400, Text("Action not supported"))))
  {
  }

  /** Number of `?` placeholders in a text. */
  function Marks(s: string): nat {
    if s == [] then 0 else Marks(s[..|s| - 1]) + (if s[|s| - 1] == '?' then 1 else 0)
  }

  lemma {:induction false} MarksConcat(a: string, b: string)
    ensures Marks(a + b) == Marks(a) + Marks(b)
    decreases |b|
  {
    if b != [] {
      assert (a + b)[..|a + b| - 1] == a + b[..|b| - 1];
      MarksConcat(a, b[..|b| - 1]);
    } else {
      assert a + b == a;
    }
  }

  lemma {:induction false} MarksNone(s: string)
    requires '?' !in s
    ensures Marks(s) == 0
    decreases |s|
  {
    if s != [] {
      assert s[|s| - 1] in s;
      var p := s[..|s| - 1];
      assert forall j :: 0 <= j < |p| ==> p[j] == s[j];
      MarksNone(p);
    }
  }

  /** Placeholders in all of `xs`. */
  function MarksIn(xs: seq<string>): nat {
    if xs == [] then 0 else Marks(xs[0]) + MarksIn(xs[1..])
  }

  lemma {:induction false} JoinMarks(xs: seq<string>, sep: string)
    requires '?' !in sep
    ensures Marks(Join(xs, sep)) == MarksIn(xs)
  {
    if |xs| == 1 {
      assert xs[1..] == [];
    } else if |xs| > 1 {
      JoinMarks(xs[1..], sep);
      MarksNone(sep);
      MarksConcat(xs[0], sep);
      MarksConcat(xs[0] + sep, Join(xs[1..], sep));
    }
  }

  lemma {:induction false} PlaceholderMarks(n: nat)
    ensures MarksIn(Placeholders(n)) == n
  {
    if n > 0 {
      assert Placeholders(n)[1..] == Placeholders(n - 1);
      PlaceholderMarks(n - 1);
    }
  }

  lemma {:induction false} AssignmentMarks(keys: seq<string>)
    requires forall i :: 0 <= i < |keys| ==> '?' !in keys[i]
    ensures MarksIn(Assignments(keys)) == |keys|
  {
    if keys != [] {
      assert Assignments(keys)[1..] == Assignments(keys[1..]);
      AssignmentMarks(keys[1..]);
      MarksNone(keys[0]);
      var a := " = ?";
      MarksNone(a[..|a| - 1]);
      MarksConcat(keys[0], a);
    }
  }

  lemma {:induction false} KeyMarks(keys: seq<string>)
    requires forall i :: 0 <= i < |keys| ==> '?' !in keys[i]
    ensures MarksIn(keys) == 0
  {
    if keys != [] {
      MarksNone(keys[0]);
      KeyMarks(keys[1..]);
    }
  }

  /** No `?` in the table name and the column names. */
  predicate NoMarks(table: string, keys: seq<string>) {
    '?' !in table && forall i :: 0 <= i < |keys| ==> '?' !in keys[i]
  }

  /** Appending a text without placeholders adds none. */
  lemma AppendPlain(a: string, lit: string)
    requires '?' !in lit
    ensures Marks(a + lit) == Marks(a)
  {
    MarksNone(lit);
    MarksConcat(a, lit);
  }

  lemma InsertShape(table: string, cols: string, ph: string)
    ensures Marks("INSERT INTO " + table + " (" + cols + ") VALUES (" + ph + ")")
            == Marks(table) + Marks(cols) + Marks(ph)
  {
    var s1 := "INSERT INTO " + table;
    assert Marks(s1) == Marks(table) by {
      MarksNone("INSERT INTO ");
      MarksConcat("INSERT INTO ", table);
    }
    var s2 := s1 + " (";
    assert Marks(s2) == Marks(s1) by { AppendPlain(s1, " ("); }
    var s3 := s2 + cols;
    assert Marks(s3) == Marks(s2) + Marks(cols) by { MarksConcat(s2, cols); }
    var s4 := s3 + ") VALUES (";
    assert Marks(s4) == Marks(s3) by { AppendPlain(s3, ") VALUES ("); }
    var s5 := s4 + ph;
    assert Marks(s5) == Marks(s4) + Marks(ph) by { MarksConcat(s4, ph); }
    assert Marks(s5 + ")") == Marks(s5) by { AppendPlain(s5, ")"); }
  }

  /** The INSERT has one `?` per column; the values are bound to them. */
  lemma InsertArity(table: string, columns: seq<string>)
    requires NoMarks(table, columns)
    ensures Marks(InsertSql(table, columns)) == |columns|
  {
    var cols := Join(columns, ", ");
    var ph := Join(Placeholders(|columns|), ", ");
    assert Marks(cols) == 0 by {
      JoinMarks(columns, ", ");
      KeyMarks(columns);
    }
    assert Marks(ph) == |columns| by {
      JoinMarks(Placeholders(|columns|), ", ");
      PlaceholderMarks(|columns|);
    }
    assert Marks(table) == 0 by { MarksNone(table); }
    assert InsertSql(table, columns) == "INSERT INTO " + table + " (" + cols + ") VALUES (" + ph + ")";
    InsertShape(table, cols, ph);
  }

  /** A text ending in ` WHERE id = ?` has one more `?` than its start. */
  lemma WhereIdShape(s: string)
    ensures Marks(s + " WHERE id = ?") == Marks(s) + 1
  {
    var w := " WHERE id = ?";
    MarksNone(w[..|w| - 1]);
    MarksConcat(s, w);
  }

  lemma UpdateShape(table: string, sets: string)
    ensures Marks("UPDATE " + table + " SET " + sets + " WHERE id = ?") == Marks(table) + Marks(sets) + 1
  {
    MarksNone("UPDATE ");
    MarksNone(" SET ");
    var s1 := "UPDATE " + table;
    MarksConcat("UPDATE ", table);
    var s2 := s1 + " SET ";
    MarksConcat(s1, " SET ");
    var s3 := s2 + sets;
    MarksConcat(s2, sets);
    WhereIdShape(s3);
  }

  /** The UPDATE has one `?` per assigned column and one for the id. */
  lemma UpdateArity(table: string, keys: seq<string>)
    requires NoMarks(table, keys)
    ensures Marks(UpdateSql(table, keys)) == |keys| + 1
  {
    var sets := Join(Assignments(keys), ", ");
    assert Marks(sets) == |keys| by {
      JoinMarks(Assignments(keys), ", ");
      AssignmentMarks(keys);
    }
    assert Marks(table) == 0 by { MarksNone(table); }
    assert UpdateSql(table, keys) == "UPDATE " + table + " SET " + sets + " WHERE id = ?";
    UpdateShape(table, sets);
  }

  lemma PrefixShape(prefix: string, table: string)
    requires '?' !in prefix && '?' !in table
    ensures Marks(prefix + table) == 0
  {
    MarksNone(prefix);
    MarksNone(table);
    MarksConcat(prefix, table);
  }

  /** Every issued statement binds exactly as many values as it has
      placeholders, provided no name in it contains a `?`. */
  lemma StatementArity(req: Option<Request>, action: string, table: string, id: Option<string>, answer: Answer)
    requires '?' !in table
    requires req.Some? && req.value.form.Some? ==>
               NoMarks(table, Keys(FormValues(req.value.form.value))) && NoMarks(table, Keys(req.value.ownProps))
    ensures var o := Handled(req, action, table, id, answer);
            o.stmt.Some? ==> Marks(o.stmt.value.sql) == |o.stmt.value.params|
  {
    if action == "create" && req.Some? && req.value.form.Some? {
      InsertArity(table, Keys(FormValues(req.value.form.value)));
    } else if action == "update" && req.Some? && req.value.form.Some? {
      UpdateArity(table, Keys(req.value.ownProps));
    } else if action == "readAll" {
      PrefixShape("SELECT * FROM ", table);
    } else if action == "read" {
      PrefixShape("SELECT * FROM ", table);
      WhereIdShape("SELECT * FROM " + table);
    } else if action == "delete" {
      PrefixShape("DELETE FROM ", table);
      WhereIdShape("DELETE FROM " + table);
    }
  }

  /** The rows of a query, or none. */
  function RowsOf(a: Answer): seq<Row> {
    if a.Rows? then a.rows else []
  }

  /** Index of the first listing that throws, or the number of listings. */
  function FirstThrow(answers: seq<Answer>): (n: nat)
    ensures n <= |answers|
    ensures forall j :: 0 <= j < n ==> answers[j].Rows?
    ensures n < |answers| ==> answers[n].Throws?
  {
    if answers == [] || answers[0].Throws? then 0 else 1 + FirstThrow(answers[1..])
  }

  /** The `data[key] = rows` assignments `fetchData` performs. */
  function Listings(keys: seq<string>, answers: seq<Answer>): (ws: seq<(string, seq<Row>)>)
    requires |answers| == |keys|
    ensures |ws| == |keys| && forall i :: 0 <= i < |keys| ==> ws[i] == (keys[i], RowsOf(answers[i]))
  {
    seq(|keys|, i requires 0 <= i < |keys| => (keys[i], RowsOf(answers[i])))
  }

  /** What `fetchData(keys)` resolves to when the i-th listing gets
      `answers[i]`: nothing if one of them throws. */
  function Fetched(keys: seq<string>, answers: seq<Answer>): Option<Dict<seq<Row>>>
    requires |answers| == |keys|
  {
    if FirstThrow(answers) < |keys| then None else Some(ApplyAll([], Listings(keys, answers)))
  }

  /** The listing statements for `keys`, in order. */
  function Selects(keys: seq<string>): (ss: seq<Statement>)
    ensures |ss| == |keys|
  {
    seq(|keys|, i requires 0 <= i < |keys| => Statement(SelectAllSql(keys[i]), []))
  }

  /** The listing statements issued: up to and including the first that throws. */
  function ListingStatements(keys: seq<string>, answers: seq<Answer>): seq<Statement>
    requires |answers| == |keys|
  {
    if FirstThrow(answers) < |keys| then Selects(keys[..FirstThrow(answers) + 1]) else Selects(keys)
  }

  lemma SelectsStep(keys: seq<string>, i: nat)
    requires i < |keys|
    ensures Selects(keys[..i + 1]) == Selects(keys[..i]) + [Statement(SelectAllSql(keys[i]), [])]
  {
  }

  lemma ListingsStep(keys: seq<string>, answers: seq<Answer>, i: nat)
    requires |answers| == |keys| && i < |keys|
    ensures ApplyAll([], Listings(keys, answers)[..i + 1])
            == Put(ApplyAll([], Listings(keys, answers)[..i]), keys[i], RowsOf(answers[i]))
  {
    var ws := Listings(keys, answers);
    assert ws[..i + 1][..i] == ws[..i];
  }

  /** `handleEntityRequest(null, "readAll", table)`. */
  method ListEntity(db: Database, table: string, answer: Answer) returns (reply: Option<Response>)
    modifies db
    ensures db.executed == old(db.executed) + [Statement(SelectAllSql(table), [])]
    ensures reply == if answer.Throws? then None else Some(Response(200, JsonRows(answer.rows)))
  {
    reply := HandleEntityRequest(db, None, "readAll", table, None, answer);
    ListingOutcome(table, answer);
  }

  /** One round of `fetchData`: list `key` and store its rows when the
      listing answered ok; nothing when the listing throws. */
  method FetchOne(db: Database, acc: Dict<seq<Row>>, key: string, answer: Answer) returns (next: Option<Dict<seq<Row>>>)
    modifies db
    ensures db.executed == old(db.executed) + [Statement(SelectAllSql(key), [])]
    ensures next == if answer.Throws? then None else Some(Put(acc, key, answer.rows))
  {
    var response := ListEntity(db, key, answer);
    if response.None? {
      return None;
    }
    var data := acc;
    if Ok(response.value) {
      data := Put(data, key, response.value.body.rows);
    }
    return Some(data);
  }

  /** `fetchData(keys)`: lists each entity in turn and stores each listing
      that answered ok under its key. */
  method FetchData(db: Database, keys: seq<string>, answers: seq<Answer>) returns (data: Option<Dict<seq<Row>>>)
    requires |answers| == |keys|
    modifies db
    ensures data == Fetched(keys, answers)
    ensures db.executed == old(db.executed) + ListingStatements(keys, answers)
  {
    var acc: Dict<seq<Row>> := [];
    ghost var log := db.executed;
    var i := 0;
    while i < |keys|
      invariant 0 <= i <= |keys|
      invariant FirstThrow(answers) >= i
      invariant acc == ApplyAll([], Listings(keys, answers)[..i])
      invariant db.executed == log + Selects(keys[..i])
    {
      var next := FetchOne(db, acc, keys[i], answers[i]);
      LogStep(log, keys, i);
      assert db.executed == log + Selects(keys[..i + 1]);
      if next.None? {
        FetchStopsAt(keys, answers, i);
        return None;
      }
      FetchAdvance(keys, answers, i, acc);
      acc := next.value;
      i := i + 1;
    }
    FetchCompletes(keys, answers);
    return Some(acc);
  }

  /** One more listing extends the log by its select. */
  lemma LogStep(log: seq<Statement>, keys: seq<string>, i: nat)
    requires i < |keys|
    ensures log + Selects(keys[..i]) + [Statement(SelectAllSql(keys[i]), [])] == log + Selects(keys[..i + 1])
  {
    SelectsStep(keys, i);
  }

  /** A listing that answers moves `fetchData` one key on. */
  lemma FetchAdvance(keys: seq<string>, answers: seq<Answer>, i: nat, acc: Dict<seq<Row>>)
    requires |answers| == |keys| && i < |keys|
    requires FirstThrow(answers) >= i && answers[i].Rows?
    requires acc == ApplyAll([], Listings(keys, answers)[..i])
    ensures FirstThrow(answers) >= i + 1
    ensures Put(acc, keys[i], answers[i].rows) == ApplyAll([], Listings(keys, answers)[..i + 1])
  {
    FirstThrowPast(answers, i);
    ListingsStep(keys, answers, i);
  }

  lemma FirstThrowPast(answers: seq<Answer>, i: nat)
    requires i < |answers| && FirstThrow(answers) >= i && answers[i].Rows?
    ensures FirstThrow(answers) >= i + 1
  {
  }

  /** A listing that throws ends `fetchData` with its statement the last issued. */
  lemma FetchStopsAt(keys: seq<string>, answers: seq<Answer>, i: nat)
    requires |answers| == |keys| && i < |keys|
    requires FirstThrow(answers) >= i && answers[i].Throws?
    ensures Fetched(keys, answers).None?
    ensures ListingStatements(keys, answers) == Selects(keys[..i + 1])
  {
  }

  /** With no listing throwing, every listing is issued and assigned. */
  lemma FetchCompletes(keys: seq<string>, answers: seq<Answer>)
    requires |answers| == |keys| && FirstThrow(answers) >= |keys|
    ensures Fetched(keys, answers) == Some(ApplyAll([], Listings(keys, answers)[..|keys|]))
    ensures ListingStatements(keys, answers) == Selects(keys[..|keys|])
  {
    assert Listings(keys, answers)[..|keys|] == Listings(keys, answers);
    assert keys[..|keys|] == keys;
  }

  /** What one listing of `fetchData` issues and resolves to. */
  lemma ListingOutcome(table: string, answer: Answer)
    ensures Issued(Handled(None, "readAll", table, None, answer)) == [Statement(SelectAllSql(table), [])]
    ensures Handled(None, "readAll", table, None, answer).reply
            == if answer.Throws? then None else Some(Response(200, JsonRows(answer.rows)))
  {
  }

  lemma FirstThrowAt(answers: seq<Answer>, i: nat)
    requires i < |answers| && answers[i].Throws?
    requires forall j :: 0 <= j < i ==> answers[j].Rows?
    ensures FirstThrow(answers) == i
  {
  }

  lemma FirstThrowNone(answers: seq<Answer>)
    requires forall j :: 0 <= j < |answers| ==> answers[j].Rows?
    ensures FirstThrow(answers) == |answers|
  {
  }

  /** When no listing throws, the result has exactly the requested keys, in
      first-request order, and a key requested twice holds its last listing. */
  lemma FetchedKeys(keys: seq<string>, answers: seq<Answer>, k: string)
    requires |answers| == |keys| && Fetched(keys, answers).Some?
    ensures DistinctKeys(Fetched(keys, answers).value)
    ensures k in Keys(Fetched(keys, answers).value) <==> k in keys
    ensures Keys(Fetched(keys, answers).value) == FirstOccurrences(keys)
  {
    var ws := Listings(keys, answers);
    ApplyAllKeyOrder(ws);
    assert Keys(ws) == keys;
    ApplyAllKeepsOrder([], ws);
    if k in Keys(ApplyAll([], ws)) {
      ApplyAllKeyOrigin([], ws, k);
    }
    if k in keys {
      var i :| 0 <= i < |keys| && keys[i] == k;
      ApplyAllHasKey([], ws, i);
    }
  }

  /** A key listed more than once holds the rows of its last listing. */
  lemma FetchedLastListingWins(keys: seq<string>, answers: seq<Answer>, i: nat)
    requires |answers| == |keys| && Fetched(keys, answers).Some?
    requires i < |keys| && forall j :: i < j < |keys| ==> keys[j] != keys[i]
    ensures Lookup(Fetched(keys, answers).value, keys[i]) == Some(answers[i].rows)
  {
    ApplyAllLast([], Listings(keys, answers), i);
  }
}
