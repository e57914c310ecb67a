/**
 * Requests, responses, SQL statements and storage answers, as the handlers
 * see them. Rendered pages, JSON encodings and rows are opaque values: a
 * response body records what would have been rendered or serialised.
 */
module Http {
  import opened Wrappers
  import opened Assoc

  /** A database row, column name to value. */
  type Row = Dict<string>

  /** `verb` is `req.method`. `path` is `new URL(req.url).pathname`: already
      percent-encoded and with dot segments resolved, and every lookup uses it
      verbatim. `form` is what `req.formData()` resolves to: the submitted
      entries in order (a name may repeat), or `None` when the body is not
      form data and the call rejects. `ownProps` holds the own enumerable
      properties of the `FormData` object itself, which is what `Object.keys`
      and `Object.values` see. */
  datatype Request = Request(verb: string, path: string, form: Option<seq<(string, string)>>, ownProps: Dict<string>)

  /** The data a page template is rendered with. */
  datatype PageData = NoData | Todos(rows: seq<Row>) | Task(id: int, title: string, status: string)

  datatype Body =
    | Text(text: string)
    | JsonRows(rows: seq<Row>)
    | JsonRow(row: Row)
    | Page(template: string, data: PageData)
    | NoBody

  datatype Response = Response(status: int, body: Body)

  /** `response.ok`. */
  predicate Ok(r: Response) {
    200 <= r.status <= 299
  }

  /** A statement with its bound parameters; `None` is `undefined`. */
  datatype Statement = Statement(sql: string, params: seq<Option<string>>)

  /** What storage does with a statement: yield rows (none for statements
      that are only run), or throw. */
  datatype Answer = Rows(rows: seq<Row>) | Throws

  /** The SQLite database handle, seen through the statements it is given. */
  class Database {
    var executed: seq<Statement>

    constructor()
      ensures executed == []
    {
      executed := [];
    }
  }
}
