/**
 * The todo server of src/server.ts: one page route per `.pug` file of the
 * pages directory, then the fixed routes `/todos`, `/todos/:id` and `/`, all
 * in one object keyed by path, and dispatch by exact lookup of the request
 * path (no pattern matching), or 404. Storage (src/service.ts) is not
 * modelled: the id `createToDo` returns, the list `readToDoList` returns and
 * whether the storage call a handler awaits throws are inputs, and a
 * handler's storage call is reported as an effect.
 */
module TodoServer {
  import opened Wrappers
  import opened Strings
  import opened Assoc
  import opened Http
  import PageRoutes

  const ComponentsPath := "./src/views/components/"

  datatype Handler = PageView(file: string) | TodosCollection | TodoItem | TodosHome

  /** The storage call a handler makes; `None` as an id is `NaN`. */
  datatype Effect = NoEffect | CreateTodo(title: string, status: string) | DeleteTodo(id: Option<int>) | ListTodos

  function PageWrites(files: seq<string>): (ws: seq<(string, Handler)>)
    ensures |ws| == |files|
    ensures forall i :: 0 <= i < |files| ==> ws[i] == (PageRoutes.DetermineRoute(files[i]), PageView(files[i]))
  {
    seq(|files|, i requires 0 <= i < |files| => (PageRoutes.DetermineRoute(files[i]), PageView(files[i])))
  }

  /** The table `main` builds: the pages in scan order, then the three fixed
      routes, each replacing a page of the same path in place. */
  function Routes(files: seq<string>): Dict<Handler> {
    var pages := ApplyAll([], PageWrites(files));
    Put(Put(Put(pages, "/todos", TodosCollection), "/todos/:id", TodoItem), "/", TodosHome)
  }

  /** The route-building part of `main`. */
  method BuildRoutes(files: seq<string>) returns (routes: Dict<Handler>)
    ensures routes == Routes(files)
  {
    routes := [];
    for i := 0 to |files|
      invariant routes == ApplyAll([], PageWrites(files)[..i])
    {
      ApplyAllPrefix([], PageWrites(files), i);
      var routePath := PageRoutes.DetermineRoute(files[i]);
      routes := Put(routes, routePath, PageView(files[i]));
    }
    assert PageWrites(files)[..|files|] == PageWrites(files);
    routes := Put(routes, "/todos", TodosCollection);
    routes := Put(routes, "/todos/:id", TodoItem);
    routes := Put(routes, "/", TodosHome);
  }

  /** `formData.get(name)`: the value of the first entry with that name. */
  function FormGet(form: seq<(string, string)>, name: string): (r: Option<string>)
    ensures r.None? <==> forall i :: 0 <= i < |form| ==> form[i].0 != name
    ensures r.Some? ==> exists i :: 0 <= i < |form| && form[i] == (name, r.value)
                          && forall j :: 0 <= j < i ==> form[j].0 != name
  {
    if form == [] then None
    else if form[0].0 == name then Some(form[0].1)
    else
      var r := FormGet(form[1..], name);
      if r.Some? then
        var i :| 0 <= i < |form[1..]| && form[1..][i] == (name, r.value)
                 && forall j :: 0 <= j < i ==> form[1..][j].0 != name;
        assert form[i + 1] == (name, r.value);
        assert forall j :: 0 <= j < i + 1 ==> form[j].0 != name by {
          forall j | 0 <= j < i + 1 ensures form[j].0 != name {
            if j > 0 { assert form[j] == form[1..][j - 1]; }
          }
        }
        r
      else
        assert forall i :: 0 <= i < |form| ==> form[i].0 != name by {
          forall i | 0 <= i < |form| ensures form[i].0 != name {
            if i > 0 { assert form[i] == form[1..][i - 1]; }
          }
        }
        r
  }

  /** `value?.toString() || fallback`: a missing or empty value gives way. */
  function OrDefault(v: Option<string>, fallback: string): string {
    if v.Some? && v.value != "" then v.value else fallback
  }

  /** `path.split("/").pop()`: the text after the last `/`, or all of it. */
  function LastSegment(path: string): (r: string)
    ensures '/' !in r && EndsWith(path, r)
    ensures |r| < |path| ==> path[|path| - |r| - 1] == '/'
  {
    if path == [] || path[|path| - 1] == '/' then []
    else
      var r := LastSegment(path[..|path| - 1]) + [path[|path| - 1]];
      assert path[..|path| - 1][|path| - 1 - (|r| - 1)..] + [path[|path| - 1]] == path[|path| - |r|..];
      r
  }

  predicate IsDigit(c: char) {
    '0' <= c <= '9'
  }

  /** Length of the run of decimal digits `s` starts with. */
  function DigitRun(s: string): (n: nat)
    ensures n <= |s| && forall i :: 0 <= i < n ==> IsDigit(s[i])
    ensures n < |s| ==> !IsDigit(s[n])
  {
    if s != [] && IsDigit(s[0]) then 1 + DigitRun(s[1..]) else 0
  }

  /** The number a run of decimal digits denotes. */
  function DecimalValue(s: string): nat
    requires forall i :: 0 <= i < |s| ==> IsDigit(s[i])
  {
    if s == [] then 0
    else
      var d := s[|s| - 1] as int - '0' as int;
      assert IsDigit(s[|s| - 1]);
      DecimalValue(s[..|s| - 1]) * 10 + d
  }

  /** `parseInt(s, 10)`: an optional sign and the digits after it, as far as
      they go; `None` (`NaN`) when there are none. Only a leading `-` gives a
      negative number. */
  function ParseInt(s: string): (r: Option<int>)
    ensures r.None? <==> var u := Unsigned(s); u == [] || !IsDigit(u[0])
    ensures r.Some? && r.value < 0 ==> s[0] == '-'
    ensures r.Some? && s[0] == '-' ==> r.value <= 0
  {
    var negative := s != [] && s[0] == '-';
    var digits := Unsigned(s);
    var n := DigitRun(digits);
    if n == 0 then None
    else
      var v: int := DecimalValue(digits[..n]);
      Some(if negative then -v else v)
  }

  /** The text after one leading sign. */
  function Unsigned(s: string): (u: string)
    ensures |u| <= |s|
  {
    if s != [] && (s[0] == '-' || s[0] == '+') then s[1..] else s
  }

  /** The id text of `/todos/:id`: the last segment, or `0` when it is empty. */
  function IdText(path: string): string {
    var seg := LastSegment(path);
    if seg == "" then "0" else seg
  }

  /** The reply of one handler, with the storage call it makes; `newId` is
      what `createToDo` resolves to, `todos` what `readToDoList` does, and
      `throws` whether the storage call the handler awaits throws. A reply of
      `None` is a rejected promise: a POST whose body is not form data, or a
      storage call that throws (the call is still reported). Only a POST to
      the collection creates, only a DELETE on the item deletes, only the home
      handler lists, and only the page and home handlers answer with a page. */
  function Respond(h: Handler, req: Request, newId: int, todos: seq<Row>, throws: bool): (r: (Effect, Option<Response>))
    ensures r.0.CreateTodo? <==> h.TodosCollection? && req.verb == "POST" && req.form.Some?
    ensures r.0.DeleteTodo? <==> h.TodoItem? && req.verb == "DELETE"
    ensures r.0.ListTodos? <==> h.TodosHome?
    ensures r.1.None? <==> (h.TodosCollection? && req.verb == "POST" && req.form.None?)
                           || (throws && r.0 != NoEffect)
    ensures r.1.Some? ==> r.1.value.status in {200, 405}
    ensures r.1.Some? && r.1.value.status == 405 <==> (h.TodosCollection? && req.verb != "POST") || (h.TodoItem? && req.verb != "DELETE")
  {
    match h
    case PageView(file) => (NoEffect, Some(Response(200, Page(file, NoData))))
    case TodosCollection =>
      if req.verb == "POST" then
        match req.form
        case None => (NoEffect, None)
        case Some(form) =>
          var title := OrDefault(FormGet(form, "title"), "Untitled");
          var status := OrDefault(FormGet(form, "status"), "Pending");
          (CreateTodo(title, status),
           if throws then None else Some(Response(200, Page(ComponentsPath + "task.pug", Task(newId, title, status)))))
      else (NoEffect, Some(Response(405, Text("Method not allowed"))))
    case TodoItem =>
      if req.verb == "DELETE" then
        (DeleteTodo(ParseInt(IdText(req.path))), if throws then None else Some(Response(200, NoBody)))
      else (NoEffect, Some(Response(405, Text("Method not allowed"))))
    case TodosHome =>
      (ListTodos, if throws then None else Some(Response(200, Page(PageRoutes.PagesPath + "index.pug", Todos(todos)))))
  }

  /** The `fetch` handler: the handler stored under the exact path, or 404
      with no storage call. */
  function Serve(routes: Dict<Handler>, req: Request, newId: int, todos: seq<Row>, throws: bool): (r: (Effect, Option<Response>))
    ensures Lookup(routes, req.path).None? <==> r == (NoEffect, Some(Response(404, Text("Not Found"))))
    ensures Lookup(routes, req.path).Some? ==> r == Respond(Lookup(routes, req.path).value, req, newId, todos, throws)
  {
    match Lookup(routes, req.path)
    case Some(h) => Respond(h, req, newId, todos, throws)
    case None => (NoEffect, Some(Response(404, Text("Not Found"))))
  }

  /** The fixed routes replace any page of the same path. */
  lemma FixedRoutes(files: seq<string>)
    ensures Lookup(Routes(files), "/todos") == Some(TodosCollection)
    ensures Lookup(Routes(files), "/todos/:id") == Some(TodoItem)
    ensures Lookup(Routes(files), "/") == Some(TodosHome)
  {
  }

  /** Every other path is a page route or unrouted. */
  lemma OtherPaths(files: seq<string>, path: string)
    requires path != "/todos" && path != "/todos/:id" && path != "/"
    ensures Lookup(Routes(files), path).None?
            <==> forall i :: 0 <= i < |files| ==> PageRoutes.DetermineRoute(files[i]) != path
    ensures Lookup(Routes(files), path).Some? ==> Lookup(Routes(files), path).value.PageView?
  {
    PagesUnderneath(files, path);
    PagesRouted(files, path);
    PagesArePages(files, path);
  }

  /** The pages alone route a path exactly when some file names it. */
  lemma PagesRouted(files: seq<string>, path: string)
    ensures Lookup(ApplyAll([], PageWrites(files)), path).None?
            <==> forall i :: 0 <= i < |files| ==> PageRoutes.DetermineRoute(files[i]) != path
  {
    var ws := PageWrites(files);
    if path in Keys(ApplyAll([], ws)) {
      ApplyAllKeyOrigin([], ws, path);
    }
    if i :| 0 <= i < |files| && PageRoutes.DetermineRoute(files[i]) == path {
      ApplyAllHasKey([], ws, i);
    }
  }

  /** The pages alone hold page handlers only. */
  lemma PagesArePages(files: seq<string>, path: string)
    ensures Lookup(ApplyAll([], PageWrites(files)), path).Some? ==> Lookup(ApplyAll([], PageWrites(files)), path).value.PageView?
  {
    var ws := PageWrites(files);
    if Lookup(ApplyAll([], ws), path).Some? {
      ApplyAllValueOrigin([], ws, path);
    }
  }

  /** Off the fixed paths, the table reads as the pages alone. */
  lemma PagesUnderneath(files: seq<string>, path: string)
    requires path != "/todos" && path != "/todos/:id" && path != "/"
    ensures Lookup(Routes(files), path) == Lookup(ApplyAll([], PageWrites(files)), path)
  {
  }

  /** The item handler is reached only by the literal path `/todos/:id`:
      `/todos/5` never reaches it. */
  lemma ItemOnlyAtLiteralKey(files: seq<string>, path: string)
    ensures Lookup(Routes(files), path) == Some(TodoItem) <==> path == "/todos/:id"
  {
    FixedRoutes(files);
    if path != "/todos" && path != "/todos/:id" && path != "/" {
      OtherPaths(files, path);
    }
  }

  /** So the id it deletes is always `parseInt(":id")`, which is `NaN`. */
  lemma ItemIdIsNaN(files: seq<string>, req: Request, newId: int, todos: seq<Row>, throws: bool)
    requires req.verb == "DELETE"
    requires Lookup(Routes(files), req.path) == Some(TodoItem)
    ensures Serve(Routes(files), req, newId, todos, throws)
            == (DeleteTodo(None), if throws then None else Some(Response(200, NoBody)))
  {
    assert Serve(Routes(files), req, newId, todos, throws) == Respond(TodoItem, req, newId, todos, throws);
    ItemOnlyAtLiteralKey(files, req.path);
    DeleteAtItemKey(req, newId, todos, throws);
  }

  lemma DeleteAtItemKey(req: Request, newId: int, todos: seq<Row>, throws: bool)
    requires req.verb == "DELETE" && req.path == "/todos/:id"
    ensures Respond(TodoItem, req, newId, todos, throws)
            == (DeleteTodo(None), if throws then None else Some(Response(200, NoBody)))
  {
    ItemIdText(req.path);
    var e := if req.verb == "DELETE" then DeleteTodo(ParseInt(IdText(req.path))) else NoEffect;
    assert e == DeleteTodo(None);
  }

  lemma ItemIdText(path: string)
    requires path == "/todos/:id"
    ensures ParseInt(IdText(path)) == None
  {
    assert path == "/todos/" + ":id";
    LastSegmentAfterSlash("/todos/", ":id");
    assert !IsDigit(':');
  }

  /** The text after a final `/` is the last segment. */
  lemma {:induction false} LastSegmentAfterSlash(dir: string, seg: string)
    requires dir != [] && dir[|dir| - 1] == '/' && '/' !in seg
    ensures LastSegment(dir + seg) == seg
    decreases |seg|
  {
    if seg == [] {
      assert dir + seg == dir;
    } else {
      var n := |seg| - 1;
      assert (dir + seg)[..|dir + seg| - 1] == dir + seg[..n];
      assert seg[n] in seg;
      LastSegmentAfterSlash(dir, seg[..n]);
      assert seg[..n] + [seg[n]] == seg;
    }
  }

  /** A method other than the one a fixed route serves gets 405 and touches
      no storage. */
  lemma WrongMethod(req: Request, newId: int, todos: seq<Row>, throws: bool)
    ensures req.verb != "POST" ==> Respond(TodosCollection, req, newId, todos, throws) == (NoEffect, Some(Response(405, Text("Method not allowed"))))
    ensures req.verb != "DELETE" ==> Respond(TodoItem, req, newId, todos, throws) == (NoEffect, Some(Response(405, Text("Method not allowed"))))
  {
  }

  /** A POST to `/todos` whose body is form data creates a todo with the
      first submitted title and status, or `Untitled` and `Pending` when a
      field is missing or empty, and renders that task with the id storage
      gave it, unless `createToDo` throws and the handler rejects. A body that
      is not form data rejects and creates nothing. */
  lemma PostDefaults(req: Request, newId: int, todos: seq<Row>, throws: bool, v: string, w: string)
    requires req.verb == "POST"
    ensures req.form.None? ==> Respond(TodosCollection, req, newId, todos, throws) == (NoEffect, None)
    ensures req.form.Some? ==>
            var (e, reply) := Respond(TodosCollection, req, newId, todos, throws);
            var form := req.form.value;
            && e.CreateTodo?
            && e.title != "" && e.status != ""
            && (FormGet(form, "title") == Some(v) && v != "" ==> e.title == v)
            && (FormGet(form, "title") in {None, Some("")} ==> e.title == "Untitled")
            && (FormGet(form, "status") == Some(w) && w != "" ==> e.status == w)
            && (FormGet(form, "status") in {None, Some("")} ==> e.status == "Pending")
            && reply == if throws then None else Some(Response(200, Page(ComponentsPath + "task.pug", Task(newId, e.title, e.status))))
  {
  }

  /** `parseInt` reads back a run of digits followed by anything else. */
  lemma ParseIntDigits(digits: string, tail: string)
    requires digits != [] && forall i :: 0 <= i < |digits| ==> IsDigit(digits[i])
    requires tail == [] || !IsDigit(tail[0])
    ensures ParseInt(digits + tail) == Some(DecimalValue(digits))
  {
    DigitRunPrefix(digits, tail);
    assert (digits + tail)[..|digits|] == digits;
  }

  /** After a `-` the same run reads back negated, after a `+` unchanged. */
  lemma ParseIntSigned(digits: string, tail: string)
    requires digits != [] && forall i :: 0 <= i < |digits| ==> IsDigit(digits[i])
    requires tail == [] || !IsDigit(tail[0])
    ensures ParseInt(['-'] + (digits + tail)) == Some(-(DecimalValue(digits) as int))
    ensures ParseInt(['+'] + (digits + tail)) == Some(DecimalValue(digits))
  {
    var u := digits + tail;
    ParseIntDigits(digits, tail);
    assert u[0] == digits[0];
    SignedDigits('-', u, DecimalValue(digits));
    SignedDigits('+', u, DecimalValue(digits));
  }

  /** A sign in front changes only the sign of what follows. */
  lemma SignedDigits(sign: char, u: string, v: int)
    requires sign == '-' || sign == '+'
    requires u != [] && IsDigit(u[0]) && ParseInt(u) == Some(v)
    ensures ParseInt([sign] + u) == Some(if sign == '-' then -v else v)
  {
    assert Unsigned([sign] + u) == u;
  }

  lemma {:induction false} DigitRunPrefix(digits: string, tail: string)
    requires forall i :: 0 <= i < |digits| ==> IsDigit(digits[i])
    requires tail == [] || !IsDigit(tail[0])
    ensures DigitRun(digits + tail) == |digits|
    decreases |digits|
  {
    if digits == [] {
      assert digits + tail == tail;
    } else {
      assert (digits + tail)[1..] == digits[1..] + tail;
      DigitRunPrefix(digits[1..], tail);
    }
  }
}
