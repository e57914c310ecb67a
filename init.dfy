/**
 * Start-up of the newest server, src/server/steps/init.ts: every API
 * configuration's table is created, then the route table is filled with one
 * GET route per page file and the routes each configuration's flags ask for,
 * and finally GET `/` is bound to the todo listing page.
 *
 * `addRoute` and `determineRouteName` are imported from a module that does not
 * define them. They are taken to be the nested assignment
 * `routes[pattern][method] = handler`, creating `routes[pattern]` when missing,
 * and `determineRoute` of src/server/logic/routes.ts. The shared `routes`
 * object is a `RouteTable` whose initial contents are whatever it held. The
 * directory scans and YAML parsing are not modelled: the page files and the
 * configuration files with their parsed contents are inputs.
 */
module Init {
  import opened Wrappers
  import opened Assoc
  import opened RoutePattern
  import opened Router
  import opened Schema
  import opened Http
  import opened EntityHandler
  import LogicRoutes

  datatype Handler = PageView(file: string) | EntityEndpoint(action: string, entity: string) | TodosHome

  /** One `addRoute(pattern, method, handler)` call. */
  datatype Binding = Binding(pattern: string, verb: string, handler: Handler)

  /** `routes[pattern]`, or no methods for a pattern never added. */
  function MethodsOf(t: Table<Handler>, pattern: string): map<string, Handler> {
    match Lookup(t, pattern)
    case Some(ms) => ms
    case None => map[]
  }

  /** The handler bound to a pattern and method, if any. */
  function HandlerFor(t: Table<Handler>, pattern: string, verb: string): (r: Option<Handler>)
    ensures r.Some? <==> pattern in Keys(t) && verb in MethodsOf(t, pattern)
  {
    if verb in MethodsOf(t, pattern) then Some(MethodsOf(t, pattern)[verb]) else None
  }

  /** `addRoute(b.pattern, b.verb, b.handler)`. */
  function AddBinding(t: Table<Handler>, b: Binding): Table<Handler> {
    Put(t, b.pattern, MethodsOf(t, b.pattern)[b.verb := b.handler])
  }

  /** `addRoute` binds the handler to its pattern and method, leaves every
      other binding alone, and appends the pattern to the table only when it
      is new. */
  lemma AddBindingEffect(t: Table<Handler>, b: Binding, p: string, m: string)
    ensures HandlerFor(AddBinding(t, b), p, m)
            == if p == b.pattern && m == b.verb then Some(b.handler) else HandlerFor(t, p, m)
    ensures Keys(AddBinding(t, b)) == if b.pattern in Keys(t) then Keys(t) else Keys(t) + [b.pattern]
  {
    var r := AddBinding(t, b);
    if p != b.pattern {
      assert Lookup(r, p) == Lookup(t, p);
    }
  }

  /** The `addRoute` calls in order. */
  function AddAll(t: Table<Handler>, bs: seq<Binding>): Table<Handler>
    decreases |bs|
  {
    if bs == [] then t
    else
      var n := |bs| - 1;
      AddBinding(AddAll(t, bs[..n]), bs[n])
  }

  class RouteTable {
    var entries: Table<Handler>

    constructor()
      ensures entries == []
    {
      entries := [];
    }

    /** `addRoute(pattern, method, handler)`. */
    method AddRoute(pattern: string, verb: string, handler: Handler)
      modifies this
      ensures entries == AddBinding(old(entries), Binding(pattern, verb, handler))
    {
      var methods := MethodsOf(entries, pattern);
      entries := Put(entries, pattern, methods[verb := handler]);
    }
  }

  /** `determineRouteName(file)`. */
  function RouteName(file: string, endpoints: string): string {
    LogicRoutes.DetermineRoute(file, endpoints)
  }

  /** The GET route of every page file, in scan order. */
  function PageBindings(pages: seq<string>, endpoints: string): (bs: seq<Binding>)
    ensures |bs| == |pages|
    ensures forall i :: 0 <= i < |pages| ==> bs[i] == Binding(RouteName(pages[i], endpoints), "GET", PageView(pages[i]))
  {
    seq(|pages|, i requires 0 <= i < |pages| => Binding(RouteName(pages[i], endpoints), "GET", PageView(pages[i])))
  }

  /** The binding, when its flag is set. */
  function Maybe<T>(flag: bool, b: T): seq<T> {
    if flag then [b] else []
  }

  /** The routes one configuration asks for, under its base route. */
  function ConfigBindings(base: string, c: ApiConfig): seq<Binding> {
    var e := c.model.table;
    var item := base + "/:id";
    Maybe(c.routes.create, Binding(base, "POST", EntityEndpoint("create", e)))
    + Maybe(c.routes.readAll, Binding(base, "GET", EntityEndpoint("readAll", e)))
    + Maybe(c.routes.read, Binding(item, "GET", EntityEndpoint("read", e)))
    + Maybe(c.routes.update, Binding(item, "PUT", EntityEndpoint("update", e)))
    + Maybe(c.routes.delete, Binding(item, "DELETE", EntityEndpoint("delete", e)))
  }

  /** The API routes of the configuration files, file by file in scan order. */
  function ApiBindings(apis: seq<(string, ApiConfig)>, endpoints: string): seq<Binding>
    decreases |apis|
  {
    if apis == [] then []
    else
      var n := |apis| - 1;
      ApiBindings(apis[..n], endpoints) + ConfigBindings(RouteName(apis[n].0, endpoints), apis[n].1)
  }

  /** `routes["/"]["GET"] = home`: fails (a `TypeError`) when nothing was
      ever routed at `/`. */
  function WithHome(t: Table<Handler>): Option<Table<Handler>> {
    if "/" in Keys(t) then Some(AddBinding(t, Binding("/", "GET", TodosHome))) else None
  }

  /** The `CREATE TABLE` statement of every configuration, in scan order. */
  function TableStatements(apis: seq<(string, ApiConfig)>): (ss: seq<Statement>)
    ensures |ss| == |apis|
    ensures forall i :: 0 <= i < |apis| ==> ss[i] == Statement(CreateTableSql(apis[i].1.model), [])
  {
    seq(|apis|, i requires 0 <= i < |apis| => Statement(CreateTableSql(apis[i].1.model), []))
  }

  lemma AddAllSnoc(t: Table<Handler>, bs: seq<Binding>, b: Binding)
    ensures AddAll(t, bs + [b]) == AddBinding(AddAll(t, bs), b)
  {
    assert (bs + [b])[..|bs|] == bs;
  }

  lemma AddAllPrefix(t: Table<Handler>, bs: seq<Binding>, i: nat)
    requires i < |bs|
    ensures AddAll(t, bs[..i + 1]) == AddBinding(AddAll(t, bs[..i]), bs[i])
  {
    assert bs[..i + 1][..i] == bs[..i];
  }

  lemma {:induction false} AddAllAppend(t: Table<Handler>, a: seq<Binding>, b: seq<Binding>)
    ensures AddAll(t, a + b) == AddAll(AddAll(t, a), b)
    decreases |b|
  {
    if b == [] {
      assert a + b == a;
    } else {
      var n := |b| - 1;
      assert (a + b)[..|a + b| - 1] == a + b[..n];
      assert (a + b)[|a + b| - 1] == b[n];
      AddAllAppend(t, a, b[..n]);
    }
  }

  /** How many `CREATE TABLE` statements storage accepts before it rejects
      one: every answer before that many is rows, and the one at it, if any,
      a throw. */
  function Created(answers: seq<Answer>): (n: nat)
    ensures n <= |answers|
    ensures forall i :: 0 <= i < n ==> answers[i].Rows?
    ensures n < |answers| ==> answers[n].Throws?
  {
    if answers == [] || answers[0].Throws? then 0 else 1 + Created(answers[1..])
  }

  /** How many `CREATE TABLE` statements `createDatabase` issues: all of them,
      or those up to and including the first that storage rejects. */
  function Attempted(answers: seq<Answer>): (n: nat)
    ensures n <= |answers|
    ensures n == |answers| || n == Created(answers) + 1
  {
    if Created(answers) < |answers| then Created(answers) + 1 else |answers|
  }

  /** `createDatabase`: one table per configuration file, in scan order,
      whatever routes the configuration enables, given storage's answer to
      each statement. The first statement storage rejects ends the loop and
      makes the call throw (`ok` false). */
  method CreateDatabase(db: Database, apis: seq<(string, ApiConfig)>, answers: seq<Answer>) returns (ok: bool)
    requires |answers| == |apis|
    modifies db
    ensures ok <==> Created(answers) == |apis|
    ensures db.executed == old(db.executed) + TableStatements(apis[..Attempted(answers)])
  {
    ghost var log := db.executed;
    for i := 0 to |apis|
      invariant i <= Created(answers)
      invariant db.executed == log + TableStatements(apis[..i])
    {
      var accepted := InitDatabaseFromConfig(db, apis[i].1, answers[i]);
      assert TableStatements(apis[..i + 1]) == TableStatements(apis[..i]) + [Statement(CreateTableSql(apis[i].1.model), [])];
      assert db.executed == log + TableStatements(apis[..i + 1]);
      if !accepted {
        return false;
      }
    }
    assert apis[..|apis|] == apis;
    return true;
  }

  /** `if (flag) addRoute(...)`. */
  method AddIf(rt: RouteTable, flag: bool, b: Binding)
    modifies rt
    ensures rt.entries == AddAll(old(rt.entries), Maybe(flag, b))
  {
    if flag {
      rt.AddRoute(b.pattern, b.verb, b.handler);
      AddAllSnoc(old(rt.entries), [], b);
    }
  }

  /** The flag tests of one configuration file. */
  method AddConfigRoutes(rt: RouteTable, base: string, config: ApiConfig)
    modifies rt
    ensures rt.entries == AddAll(old(rt.entries), ConfigBindings(base, config))
  {
    var entity := config.model.table;
    var item := base + "/:id";
    ghost var t := rt.entries;
    var r := config.routes;
    var b1, b2 := Binding(base, "POST", EntityEndpoint("create", entity)), Binding(base, "GET", EntityEndpoint("readAll", entity));
    var b3, b4 := Binding(item, "GET", EntityEndpoint("read", entity)), Binding(item, "PUT", EntityEndpoint("update", entity));
    var b5 := Binding(item, "DELETE", EntityEndpoint("delete", entity));
    AddIf(rt, r.create, b1);
    AddIf(rt, r.readAll, b2);
    AddAllAppend(t, Maybe(r.create, b1), Maybe(r.readAll, b2));
    ghost var bs := Maybe(r.create, b1) + Maybe(r.readAll, b2);
    assert rt.entries == AddAll(t, bs);
    AddIf(rt, r.read, b3);
    AddAllAppend(t, bs, Maybe(r.read, b3));
    bs := bs + Maybe(r.read, b3);
    assert rt.entries == AddAll(t, bs);
    AddIf(rt, r.update, b4);
    AddAllAppend(t, bs, Maybe(r.update, b4));
    bs := bs + Maybe(r.update, b4);
    assert rt.entries == AddAll(t, bs);
    AddIf(rt, r.delete, b5);
    AddAllAppend(t, bs, Maybe(r.delete, b5));
    bs := bs + Maybe(r.delete, b5);
  }

  /** `createRoutes`: pages, then API routes, then GET `/`; `ok` is false
      when the last assignment throws. */
  method CreateRoutes(rt: RouteTable, pages: seq<string>, apis: seq<(string, ApiConfig)>, endpoints: string)
    returns (ok: bool)
    modifies rt
    ensures var built := AddAll(old(rt.entries), PageBindings(pages, endpoints) + ApiBindings(apis, endpoints));
            if ok then WithHome(built) == Some(rt.entries) else WithHome(built).None? && rt.entries == built
  {
    ghost var t0 := rt.entries;
    AddPageRoutes(rt, pages, endpoints);
    AddApiRoutes(rt, apis, endpoints);
    AddAllAppend(t0, PageBindings(pages, endpoints), ApiBindings(apis, endpoints));
    assert rt.entries == AddAll(t0, PageBindings(pages, endpoints) + ApiBindings(apis, endpoints));
    if "/" !in Keys(rt.entries) {
      return false;
    }
    rt.AddRoute("/", "GET", TodosHome);
    return true;
  }

  /** The page loop of `createRoutes`. */
  method AddPageRoutes(rt: RouteTable, pages: seq<string>, endpoints: string)
    modifies rt
    ensures rt.entries == AddAll(old(rt.entries), PageBindings(pages, endpoints))
  {
    ghost var t0 := rt.entries;
    ghost var bs := PageBindings(pages, endpoints);
    for i := 0 to |pages|
      invariant rt.entries == AddAll(t0, bs[..i])
    {
      rt.AddRoute(RouteName(pages[i], endpoints), "GET", PageView(pages[i]));
      AddAllPrefix(t0, bs, i);
    }
    assert bs[..|pages|] == bs;
  }

  /** The configuration loop of `createRoutes`. */
  method AddApiRoutes(rt: RouteTable, apis: seq<(string, ApiConfig)>, endpoints: string)
    modifies rt
    ensures rt.entries == AddAll(old(rt.entries), ApiBindings(apis, endpoints))
  {
    ghost var t1 := rt.entries;
    for j := 0 to |apis|
      invariant rt.entries == AddAll(t1, ApiBindings(apis[..j], endpoints))
    {
      var baseRoute := RouteName(apis[j].0, endpoints);
      AddConfigRoutes(rt, baseRoute, apis[j].1);
      assert apis[..j + 1][..j] == apis[..j];
      AddAllAppend(t1, ApiBindings(apis[..j], endpoints), ConfigBindings(baseRoute, apis[j].1));
    }
    assert apis[..|apis|] == apis;
  }

  /** `init`: every table is created before any route is added. A rejected
      `CREATE TABLE` makes `init` throw (`ok` false) with the route table as it
      was; otherwise the routes are built as `createRoutes` builds them. */
  method Startup(db: Database, rt: RouteTable, pages: seq<string>, apis: seq<(string, ApiConfig)>,
                 answers: seq<Answer>, endpoints: string)
    returns (ok: bool)
    requires |answers| == |apis|
    modifies db, rt
    ensures db.executed == old(db.executed) + TableStatements(apis[..Attempted(answers)])
    ensures Created(answers) < |apis| ==> !ok && rt.entries == old(rt.entries)
    ensures Created(answers) == |apis| ==>
              var built := AddAll(old(rt.entries), PageBindings(pages, endpoints) + ApiBindings(apis, endpoints));
              if ok then WithHome(built) == Some(rt.entries) else WithHome(built).None? && rt.entries == built
  {
    ok := CreateDatabase(db, apis, answers);
    if !ok {
      return;
    }
    ok := CreateRoutes(rt, pages, apis, endpoints);
  }

  /** The bindings of one configuration land where its flags say: POST and
      GET on the base route, GET, PUT and DELETE on `base/:id`, each bound to
      the entity's handler for its action; every other method and pattern
      keeps what it had, and a configuration with every flag off adds nothing. */
  lemma ConfigRoutes(t: Table<Handler>, base: string, c: ApiConfig, p: string, m: string)
    ensures var e := c.model.table;
            var item := base + "/:id";
            HandlerFor(AddAll(t, ConfigBindings(base, c)), p, m)
            == if c.routes.create && p == base && m == "POST" then Some(EntityEndpoint("create", e))
               else if c.routes.readAll && p == base && m == "GET" then Some(EntityEndpoint("readAll", e))
               else if c.routes.read && p == item && m == "GET" then Some(EntityEndpoint("read", e))
               else if c.routes.update && p == item && m == "PUT" then Some(EntityEndpoint("update", e))
               else if c.routes.delete && p == item && m == "DELETE" then Some(EntityEndpoint("delete", e))
               else HandlerFor(t, p, m)
    ensures (!c.routes.create && !c.routes.readAll && !c.routes.read && !c.routes.update && !c.routes.delete)
            ==> AddAll(t, ConfigBindings(base, c)) == t
  {
    var e := c.model.table;
    var item := base + "/:id";
    assert |item| != |base|;
    var m1 := Maybe(c.routes.create, Binding(base, "POST", EntityEndpoint("create", e)));
    var m2 := Maybe(c.routes.readAll, Binding(base, "GET", EntityEndpoint("readAll", e)));
    var m3 := Maybe(c.routes.read, Binding(item, "GET", EntityEndpoint("read", e)));
    var m4 := Maybe(c.routes.update, Binding(item, "PUT", EntityEndpoint("update", e)));
    var m5 := Maybe(c.routes.delete, Binding(item, "DELETE", EntityEndpoint("delete", e)));
    AddAllAppend(t, m1, m2);
    AddAllAppend(t, m1 + m2, m3);
    AddAllAppend(t, m1 + m2 + m3, m4);
    AddAllAppend(t, m1 + m2 + m3 + m4, m5);
    var t1 := AddAll(t, m1);
    var t2 := AddAll(t1, m2);
    var t3 := AddAll(t2, m3);
    var t4 := AddAll(t3, m4);
    MaybeEffect(t, c.routes.create, Binding(base, "POST", EntityEndpoint("create", e)), p, m);
    MaybeEffect(t1, c.routes.readAll, Binding(base, "GET", EntityEndpoint("readAll", e)), p, m);
    MaybeEffect(t2, c.routes.read, Binding(item, "GET", EntityEndpoint("read", e)), p, m);
    MaybeEffect(t3, c.routes.update, Binding(item, "PUT", EntityEndpoint("update", e)), p, m);
    MaybeEffect(t4, c.routes.delete, Binding(item, "DELETE", EntityEndpoint("delete", e)), p, m);
  }

  lemma MaybeEffect(t: Table<Handler>, flag: bool, b: Binding, p: string, m: string)
    ensures AddAll(t, Maybe(flag, b)) == if flag then AddBinding(t, b) else t
    ensures HandlerFor(AddAll(t, Maybe(flag, b)), p, m)
            == if flag && p == b.pattern && m == b.verb then Some(b.handler) else HandlerFor(t, p, m)
  {
    if flag {
      AddAllSnoc(t, [], b);
      AddBindingEffect(t, b, p, m);
    }
  }

  /** The last binding of a pattern and method is the one that stays. */
  lemma {:induction false} AddAllLast(t: Table<Handler>, bs: seq<Binding>, i: nat)
    requires i < |bs|
    requires forall j :: i < j < |bs| ==> bs[j].pattern != bs[i].pattern || bs[j].verb != bs[i].verb
    ensures HandlerFor(AddAll(t, bs), bs[i].pattern, bs[i].verb) == Some(bs[i].handler)
    decreases |bs|
  {
    var n := |bs| - 1;
    var prev := AddAll(t, bs[..n]);
    var b := bs[i];
    assert AddAll(t, bs) == AddBinding(prev, bs[n]);
    if i < n {
      forall j | i < j < n ensures bs[..n][j].pattern != b.pattern || bs[..n][j].verb != b.verb {
        assert bs[..n][j] == bs[j];
      }
      assert bs[..n][i] == b;
      AddAllLast(t, bs[..n], i);
      LastBindingStep(prev, bs[n], b, false);
      assert HandlerFor(AddAll(t, bs), b.pattern, b.verb) == Some(b.handler);
    } else {
      LastBindingStep(prev, bs[n], b, true);
      assert HandlerFor(AddAll(t, bs), b.pattern, b.verb) == Some(b.handler);
    }
  }

  lemma LastBindingStep(prev: Table<Handler>, last: Binding, b: Binding, same: bool)
    requires same ==> last == b
    requires !same ==> (last.pattern != b.pattern || last.verb != b.verb) && HandlerFor(prev, b.pattern, b.verb) == Some(b.handler)
    ensures HandlerFor(AddBinding(prev, last), b.pattern, b.verb) == Some(b.handler)
  {
    AddBindingEffect(prev, last, b.pattern, b.verb);
  }

  /** A pattern and method no binding names keeps its handler. */
  lemma {:induction false} AddAllUnbound(t: Table<Handler>, bs: seq<Binding>, p: string, m: string)
    requires forall j :: 0 <= j < |bs| ==> bs[j].pattern != p || bs[j].verb != m
    ensures HandlerFor(AddAll(t, bs), p, m) == HandlerFor(t, p, m)
    decreases |bs|
  {
    if bs != [] {
      var n := |bs| - 1;
      AddAllUnbound(t, bs[..n], p, m);
      UnboundStep(AddAll(t, bs[..n]), bs[n], p, m);
    }
  }

  lemma UnboundStep(prev: Table<Handler>, b: Binding, p: string, m: string)
    requires b.pattern != p || b.verb != m
    ensures HandlerFor(AddBinding(prev, b), p, m) == HandlerFor(prev, p, m)
  {
    AddBindingEffect(prev, b, p, m);
  }

  /** Adding routes only appends patterns: the earlier patterns keep their
      places and none appears twice. */
  lemma {:induction false} AddAllKeys(t: Table<Handler>, bs: seq<Binding>)
    ensures Keys(t) <= Keys(AddAll(t, bs))
    ensures DistinctKeys(t) ==> DistinctKeys(AddAll(t, bs))
    decreases |bs|
  {
    if bs != [] {
      var n := |bs| - 1;
      var prev := AddAll(t, bs[..n]);
      assert AddAll(t, bs) == AddBinding(prev, bs[n]);
      AddAllKeys(t, bs[..n]);
      AddBindingEffect(prev, bs[n], bs[n].pattern, bs[n].verb);
      assert Keys(prev) <= Keys(AddAll(t, bs));
    }
  }

  /** The patterns of the bindings, in order. */
  function Patterns(bs: seq<Binding>): seq<string>
    decreases |bs|
  {
    if bs == [] then []
    else
      var n := |bs| - 1;
      Patterns(bs[..n]) + [bs[n].pattern]
  }

  /** A pattern is among the bindings' patterns exactly when some binding
      names it. */
  lemma {:induction false} PatternsNamed(bs: seq<Binding>, k: string)
    ensures k in Patterns(bs) <==> exists j :: 0 <= j < |bs| && bs[j].pattern == k
    decreases |bs|
  {
    if bs != [] {
      var n := |bs| - 1;
      PatternsNamed(bs[..n], k);
      if exists j :: 0 <= j < n && bs[..n][j].pattern == k {
        var j :| 0 <= j < n && bs[..n][j].pattern == k;
        assert bs[j].pattern == k;
      }
      if j :| 0 <= j < |bs| && bs[j].pattern == k {
        if j < n {
          assert bs[..n][j].pattern == k;
        }
      }
    }
  }

  /** The patterns of the table are those it had and those of the bindings. */
  lemma {:induction false} AddAllPatterns(t: Table<Handler>, bs: seq<Binding>, k: string)
    ensures k in Keys(AddAll(t, bs)) <==> k in Keys(t) || k in Patterns(bs)
    decreases |bs|
  {
    if bs != [] {
      var n := |bs| - 1;
      var prev := AddAll(t, bs[..n]);
      assert AddAll(t, bs) == AddBinding(prev, bs[n]);
      AddAllPatterns(t, bs[..n], k);
      AddBindingEffect(prev, bs[n], bs[n].pattern, bs[n].verb);
      assert Patterns(bs) == Patterns(bs[..n]) + [bs[n].pattern];
    }
  }

  /** The page routes come first in the table, which is the order the
      matcher tries them in; from an empty table, the patterns appear once
      each in the order of their first binding. */
  lemma PagesFirst(t0: Table<Handler>, pages: seq<string>, apis: seq<(string, ApiConfig)>, endpoints: string)
    ensures Keys(t0) <= Keys(AddAll(t0, PageBindings(pages, endpoints)))
    ensures Keys(AddAll(t0, PageBindings(pages, endpoints)))
            <= Keys(AddAll(t0, PageBindings(pages, endpoints) + ApiBindings(apis, endpoints)))
    ensures t0 == [] ==>
              Keys(AddAll(t0, PageBindings(pages, endpoints) + ApiBindings(apis, endpoints)))
              == FirstOccurrences(Patterns(PageBindings(pages, endpoints) + ApiBindings(apis, endpoints)))
  {
    var ps := PageBindings(pages, endpoints);
    AddAllKeys(t0, ps);
    AddAllAppend(t0, ps, ApiBindings(apis, endpoints));
    AddAllKeys(AddAll(t0, ps), ApiBindings(apis, endpoints));
    AddAllKeyOrder(ps + ApiBindings(apis, endpoints));
  }

  /** From an empty table, the patterns are those of the bindings, each once,
      in the order of their first binding. */
  lemma {:induction false} AddAllKeyOrder(bs: seq<Binding>)
    ensures Keys(AddAll([], bs)) == FirstOccurrences(Patterns(bs))
    decreases |bs|
  {
    if bs != [] {
      var n := |bs| - 1;
      var prev := AddAll([], bs[..n]);
      assert AddAll([], bs) == AddBinding(prev, bs[n]);
      AddAllKeyOrder(bs[..n]);
      FirstOccurrencesOrder(Patterns(bs[..n]));
      AddBindingEffect(prev, bs[n], bs[n].pattern, bs[n].verb);
      var ps := Patterns(bs);
      assert ps == Patterns(bs[..n]) + [bs[n].pattern];
      assert ps[..|ps| - 1] == Patterns(bs[..n]);
    }
  }

  /** The last assignment succeeds exactly when some pattern `/` exists; it
      then binds GET `/` to the todo listing, replacing any earlier GET `/`,
      and changes neither the pattern order nor any other binding. */
  lemma HomeRoute(t: Table<Handler>, p: string, m: string)
    ensures WithHome(t).Some? <==> "/" in Keys(t)
    ensures WithHome(t).Some? ==> Keys(WithHome(t).value) == Keys(t)
    ensures WithHome(t).Some? ==>
              HandlerFor(WithHome(t).value, p, m) == if p == "/" && m == "GET" then Some(TodosHome) else HandlerFor(t, p, m)
  {
    AddBindingEffect(t, Binding("/", "GET", TodosHome), p, m);
  }

  /** The last assignment of `createRoutes` fails exactly when neither the
      initial table nor any page or configuration file gave the pattern `/`. */
  lemma HomeNeedsRoot(t0: Table<Handler>, pages: seq<string>, apis: seq<(string, ApiConfig)>, endpoints: string)
    ensures var bs := PageBindings(pages, endpoints) + ApiBindings(apis, endpoints);
            WithHome(AddAll(t0, bs)).None?
            <==> "/" !in Keys(t0) && forall j :: 0 <= j < |bs| ==> bs[j].pattern != "/"
  {
    var bs := PageBindings(pages, endpoints) + ApiBindings(apis, endpoints);
    AddAllPatterns(t0, bs, "/");
    PatternsNamed(bs, "/");
  }

  /** An `index.pug` page in the endpoints directory names `/`, so the last
      assignment succeeds. */
  lemma IndexPageGivesHome(t0: Table<Handler>, pages: seq<string>, apis: seq<(string, ApiConfig)>, endpoints: string, i: nat)
    requires '\\' !in endpoints
    requires i < |pages| && pages[i] == endpoints + "index.pug"
    ensures WithHome(AddAll(t0, PageBindings(pages, endpoints) + ApiBindings(apis, endpoints))).Some?
  {
    var bs := PageBindings(pages, endpoints) + ApiBindings(apis, endpoints);
    LogicRoutes.IndexPageIsRoot(endpoints);
    assert bs[i].pattern == "/";
    AddAllPatterns(t0, bs, "/");
    PatternsNamed(bs, "/");
  }

  /** `id || params?.id` with `id` never given: the route's `id` parameter. */
  function ParamId(params: map<string, string>): Option<string> {
    if "id" in params then Some(params["id"]) else None
  }

  /** The todo listing handler given the reply to its `readAll`: the index
      page with the rows when the reply is ok and holds rows, 500 when it is
      not ok, and a rejection when the listing rejected. */
  function HomeReply(listing: Option<Response>, template: string): Option<Response> {
    match listing
    case None => None
    case Some(r) =>
      if !Ok(r) then Some(Response(500, Text("Failed to load todos")))
      else if r.body.JsonRows? then Some(Response(200, Page(template, Todos(r.body.rows))))
      else None
  }

  /** Calling a bound handler with the request and the parameters the
      matcher bound; storage's answer is an input. A page answers its file
      and touches no storage; the todo listing selects every todo; only an
      entity handler answers anything but 200, and it gets the route's `id`
      parameter. */
  function Invoke(h: Handler, req: Request, params: map<string, string>, answer: Answer, endpoints: string): (r: Outcome)
    ensures h.PageView? ==> r.stmt.None? && r.reply == Some(Response(200, Page(h.file, NoData)))
    ensures h.TodosHome? ==> r.stmt == Some(Statement(SelectAllSql("todos"), []))
    ensures r.reply.Some? && r.reply.value.status != 200 ==> h.EntityEndpoint?
    ensures h.EntityEndpoint? ==> r == Handled(Some(req), h.action, h.entity, ParamId(params), answer)
  {
    match h
    case PageView(file) => Outcome(None, Some(Response(200, Page(file, NoData))))
    case EntityEndpoint(action, entity) => Handled(Some(req), action, entity, ParamId(params), answer)
    case TodosHome =>
      var listing := Handled(None, "readAll", "todos", None, answer);
      Outcome(listing.stmt, HomeReply(listing.reply, endpoints + "index.pug"))
  }

  /** The todo listing selects every todo and renders the index page with
      the rows, or rejects when storage throws: its 500 branch is never taken. */
  lemma HomeNever500(req: Request, params: map<string, string>, answer: Answer, endpoints: string)
    ensures Invoke(TodosHome, req, params, answer, endpoints).stmt == Some(Statement(SelectAllSql("todos"), []))
    ensures Invoke(TodosHome, req, params, answer, endpoints).reply
            == match answer
               case Throws => None
               case Rows(rs) => Some(Response(200, Page(endpoints + "index.pug", Todos(rs))))
    ensures Invoke(TodosHome, req, params, answer, endpoints).reply.Some? ==>
              Invoke(TodosHome, req, params, answer, endpoints).reply.value.status == 200
  {
    if answer.Rows? {
      ReadAllIsOk(None, "todos", None, answer.rows);
    }
  }

  /** An item route `base/:id` matched by `base/seg` hands the entity handler
      the segment as its id. */
  lemma ItemRouteId(base: string, seg: string, req: Request, action: string, entity: string, answer: Answer, endpoints: string)
    requires ':' !in base && IsSegmentText(seg)
    ensures MatchPath(Tokenize(base + "/:id"), base + "/" + seg).Some?
    ensures Params(base + "/:id", base + "/" + seg) == map["id" := seg]
    ensures Invoke(EntityEndpoint(action, entity), req, Params(base + "/:id", base + "/" + seg), answer, endpoints)
            == Handled(Some(req), action, entity, Some(seg), answer)
  {
    IdPattern(base, seg);
    var names: seq<string> := ["id"];
    assert names[..0] == [] && [seg][..0] == [];
    assert Bind(names, [seg]) == map["id" := seg];
  }

  /** A collection route has no placeholder, so its handler gets no id. */
  lemma CollectionRouteNoId(base: string, path: string, req: Request, action: string, entity: string, answer: Answer, endpoints: string)
    requires ':' !in base
    requires MatchPath(Tokenize(base), path).Some?
    ensures Params(base, path) == map[]
    ensures Invoke(EntityEndpoint(action, entity), req, Params(base, path), answer, endpoints)
            == Handled(Some(req), action, entity, None, answer)
  {
    TokenizeLiteralPrefix(base, "");
    assert base + "" == base;
    assert Tokenize("") == [];
    LiteralPrefixMatch(base, [], "");
    ParamsKeys(base, path);
  }
}

