# simple-fullstack, modelled in Dafny

simple-fullstack is a series of small prototype web servers written in
TypeScript for the Bun runtime. Each one builds a route table at start-up
and answers requests from it. Each new version adds to the previous one:

- `server.ts` serves every `.pug` page of `./src/views/` under a route
  named after its file. A request is answered by exact path lookup, or 404.
- `src/server.ts` adds a todo list: `POST /todos`, `DELETE /todos/:id` and
  a home page `/` that lists the todos.
- `src/server/server.ts` reads YAML entity descriptions. It creates a
  SQLite table for each and adds `/api/<entity>` and `/api/<entity>/:id`
  CRUD routes, chosen by the description's route flags.
- `src/server/steps/init.ts` replaces the flat table with a nested table
  `routes[pattern][method]`. A small router (`src/server/router.ts`)
  matches request paths against `:name` patterns and binds their
  parameters.

The shared pieces are these:

- the route-name rule `determineRoute`. It normalises separators, strips
  the base directory and the extension, and handles `index`.
- the entity handler `handleEntityRequest`. It issues one SQL statement
  per action and answers with a JSON or text response.
- the DDL builder `initDatabaseFromConfig`.
- `fetchData`, which collects listings for several entities.

### Module map

| module | file | what it models |
|---|---|---|
| `Wrappers` | wrappers.dfy | `Option` |
| `Strings` | strings.dfy | JavaScript `replace` (first match only, string or alternation) and global replace, `split`/`join` |
| `Assoc` | assoc.dfy | a JavaScript object as an insertion-ordered association list: assignment, lookup, a sequence of assignments |
| `RoutePattern` | pattern.dfy | the router's pattern-to-regex translation, its match and the parameter binding |
| `Router` | router.dfy | `matchRoute` of `src/server/router.ts` |
| `RouteNames` | route_names.dfy | the route-name rule shared by every `determineRoute` |
| `LogicRoutes` | logic_routes.dfy | `src/server/logic/routes.ts` |
| `PageRoutes` | page_routes.dfy | `src/server/routing/pages.ts`, `src/server/requests/pages.ts` and the `determineRoute` of `src/server.ts` |
| `Schema` | schema.dfy | entity descriptions and the `CREATE TABLE` text, with a parser that reads it back |
| `Http` | http.dfy | requests, responses, statements, storage answers, the database as a statement log |
| `EntityHandler` | entity.dfy | `src/server/logic/database.ts` |
| `RequestsDatabase` | requests_database.dfy | `src/server/requests/database.ts` |
| `Service` | service.dfy | `src/server/service.ts` |
| `Init` | init.dfy | `src/server/steps/init.ts` |
| `PageServer` | page_server.dfy | `server.ts` |
| `TodoServer` | todo_server.dfy | `src/server.ts` |
| `ApiServer` | api_server.dfy | `src/server/server.ts` |

Several source files are copies of one another.

- `src/server/logic/routes.ts` and `src/server/routing/pages.ts` each hold
  a copy of `matchRoute`. Their models (`LogicRoutes.MatchRoute`,
  `PageRoutes.MatchRoute`) call `Router.MatchRoute` and carry its contract.
- The `initDatabaseFromConfig` of `src/server/requests/database.ts` and of
  `src/server/service.ts` is the code of `src/server/logic/database.ts`.
  The copy in `requests/database.ts` also answers requests the way the
  later version does.
- `src/server/service.ts` has an older `handleEntityRequest`. Every case
  in it returns, and it never tests the request. It has its own model,
  `Service.Handled`, and `Service.AgreesWithLater` relates it to the later
  one. `src/server/server.ts` imports its handlers from this file.

### How effects are modelled

- **Storage.** It is a `Database` object whose `executed` field logs every
  statement issued. What storage does with a statement is an input
  `Answer`: either the rows it returns or `Throws`. A handler whose
  storage call throws has its promise rejected. This is modelled as the
  reply `None`. The todo handlers of `src/server.ts` get a flag `throws`
  for their one storage call instead, because `createToDo` answers an id.
- **Creating the tables.** Every `CREATE TABLE` statement gets an `Answer`
  too. `db.run` throws when storage rejects one. The start-up loop then
  stops and `init` (or `main`) throws before any route is added
  (`Init.CreateDatabase`, `Init.Startup`, `ApiServer.Assemble`).
- **Rendering.** Rendering a template gives the value
  `Page(template, data)`.
- **Start-up inputs.** The file lists a directory scan returns and the
  parsed YAML descriptions are inputs, in scan order. So is the value of
  `ENDPOINTS_PROJECT_PATH`, and so is the route table that
  `src/server/steps/init.ts` starts from.
- **`addRoute`.** It is `routes[pattern][method] = handler`. This creates
  the inner table the first time a pattern is seen. Only the pattern table
  keeps insertion order: a new pattern goes after the existing ones
  (`Init.AddBinding`). The method table is a `map`, because only lookup by
  method is ever done on it.
- **`determineRouteName`.** It is `determineRoute` of
  `src/server/logic/routes.ts`, with base `ENDPOINTS_PROJECT_PATH` and the
  extensions `.pug`, `.yaml`, `.yml`.
- **Assigning the home route.** `src/server/steps/init.ts:51` assigns
  `routes["/"]["GET"]` without creating `routes["/"]`. So, once the tables
  are created, start-up succeeds only when some earlier route already has
  the pattern `/`. Otherwise it throws. `Init.CreateRoutes` returns `ok == false` in that
  case. `Init.HomeNeedsRoot` and `Init.IndexPageGivesHome` state when this
  happens.
- **Two route rules that differ.** `index.pug` directly under the
  endpoints directory becomes `/` in `src/server/logic/routes.ts`. The
  route rule of `src/server/requests/database.ts` gives `/index` instead.
  These are `LogicRoutes.IndexPageIsRoot` and
  `RequestsDatabase.IndexNotSpecial`.
- **Item routes in `src/server.ts`.** This server looks paths up
  literally. So its `/todos/:id` route is reachable only by the literal
  text `:id`, and the id is then `parseInt(":id")`, which is `NaN`. These
  are `TodoServer.ItemOnlyAtLiteralKey` and `TodoServer.ItemIdIsNaN`.
- **Dispatch in `src/server/server.ts`.** Its `fetch` calls
  `matchRoute(url.pathname, routes)`. The path goes where the method is
  expected, the table where the path is expected, and the table parameter
  is left `undefined`. A `for…in` over `undefined` visits nothing. So every
  request is answered 404 and no handler of this server is ever reached
  (`ApiServer.Fetch`). The table and the handlers are still modelled, as
  the code builds them.
- **Request bodies.** `req.formData()` rejects when the body is not form
  data. A request's `form` is then `None`. The handlers that read the form
  (`create`, `update`, and the todo `POST`) then reject without issuing
  anything.

## Model

The specification functions that the contracts below are stated in (such
as `RoutePattern.Tokenize`, `Router.Dispatch`, `EntityHandler.Handled`,
`Service.Handled`, `Init.WithHome`, `Schema.CreateTableSql` and
`TodoServer.OrDefault`) are reference definitions. Each is listed through
the lemmas that state its properties, not on a row of its own.

| member | source | states |
|---|---|---|
| Strings.FindFirst | src/server/logic/routes.ts:11 | the match of an alternation regex without flags: the leftmost position where some alternative occurs, taking the first listed alternative there; `None` only when no alternative occurs anywhere |
| Strings.FirstOccurrenceUnique | src/server/logic/routes.ts:11 | that leftmost-first match is unique, so "the first match" is well defined |
| Strings.RemoveFirstOf | src/server/logic/routes.ts:11 | `replace(regex, "")` without `g` removes exactly the first match and keeps the rest of the string; without a match the string is unchanged |
| Strings.RemoveFirstAtStart | src/server/logic/routes.ts:10 | removing a prefix that occurs at the start leaves the rest of the string |
| Strings.RemoveFirstLength | src/server/logic/routes.ts:10 | wherever the first occurrence is, removing it shortens the string by the pattern's length |
| Strings.ReplaceEvery | src/server/logic/routes.ts:9 | the global replace `/\\/g` keeps the length and changes every backslash into `/` and nothing else |
| Strings.ReplaceEveryIdempotent | src/server/logic/routes.ts:9 | normalising separators twice is the same as normalising once |
| Strings.SplitJoin | src/server/logic/database.ts:16 | splitting a `join(sep)` on `sep` gives back the parts when no part contains the separator's first character |
| Assoc.Put | src/server.ts:17 | after `o[k] = v`, `k` reads `v`. Every other key reads as before |
| Assoc.PutKeys | src/server.ts:17 | a new key is appended at the end and an existing key keeps its place. Distinct keys stay distinct |
| Assoc.Lookup | src/server.ts:58 | `o[k]` is the value stored under `k`, and absent exactly when `k` is not a key |
| Assoc.ApplyAllUnassigned | server.ts:35-38 | a key no assignment in the sequence writes keeps its earlier value |
| Assoc.ApplyAllLast | server.ts:35-38 | after a sequence of assignments, a key reads the value of its last assignment |
| Assoc.ApplyAllKeepsOrder | server.ts:35-38 | the earlier keys stay a prefix, in order, and the keys stay distinct |
| Assoc.ApplyAllKeyOrigin | server.ts:35-38 | a key that was not present before is one the sequence assigned |
| Assoc.ApplyAllHasKey | server.ts:35-38 | every key the sequence assigns is present afterwards |
| Assoc.ApplyAllAppend | src/server/server.ts:25-61 | two loops of assignments in a row are the same as one loop over both sequences |
| Assoc.FirstOccurrencesOrder | server.ts:35-38 | the reference order of keys: each key of a list once, and a key before another exactly when it first occurs earlier |
| Assoc.ApplyAllKeyOrder | server.ts:35-38 | starting from `{}`, the keys after a sequence of assignments are the assigned keys in the order of their first assignment, each once |
| Assoc.ApplyAllValueOrigin | src/server.ts:15-18 | a value read afterwards was either there before or was assigned by the sequence |
| RoutePattern.TokenizeHole | src/server/router.ts:14 | `:name` followed by `/` or the end, with a non-empty `name` without `/`, becomes one placeholder `name`. The name may be any characters other than `/`, colons included |
| RoutePattern.TokenizeLiteral | src/server/router.ts:14 | any other character, a `:` with nothing or `/` after it included, stays literal text |
| RoutePattern.HoleSplit | src/server/router.ts:14 | a pattern opening with `:` and a non-`/` character is `:name` followed by `/` or the end, and its first token is the placeholder `name` |
| RoutePattern.TokenizeWellFormed | src/server/router.ts:14 | every placeholder has a non-empty name without `/` and is followed by a literal `/` or the end |
| RoutePattern.RenderTokenize | src/server/router.ts:14 | writing the tokens back out gives the pattern, so no character is lost or invented |
| RoutePattern.CoreMatch | src/server/router.ts:14-16 | a match gives one capture per placeholder, each a non-empty text without `/` |
| RoutePattern.CoreMatchIffMatches | src/server/router.ts:14-16 | the deterministic matcher finds captures exactly when the backtracking reading of the regex `^…\/?$` (each placeholder `([^/]+)`) can match with those captures |
| RoutePattern.HoleTakesRun | src/server/router.ts:14 | in a well-formed pattern, a placeholder's capture is the whole run of non-`/` characters at its position |
| RoutePattern.CoreMatchSlashes | src/server/router.ts:14 | the captures never contain `/` |
| RoutePattern.MatchPath | src/server/router.ts:15-16 | the result of `new RegExp('^' + pattern + '/?$').exec(path)`: the captures in placeholder order, with an optional trailing slash |
| RoutePattern.MatchPathIffRegex | src/server/router.ts:15-16 | `MatchPath` succeeds, with captures `cs`, exactly when the path with or without one trailing slash matches the pattern with captures `cs` |
| RoutePattern.OneReading | src/server/router.ts:15 | a path has at most one set of captures for a pattern |
| RoutePattern.TrailingSlash | src/server/router.ts:15 | `p` and `p/` match the same way |
| RoutePattern.NoExtraSegment | src/server/router.ts:15 | a path with an extra `/segment` after a match does not match |
| RoutePattern.LiteralCoreMatch | src/server/router.ts:14-16 | a pattern without placeholders matches only its own text, with no captures |
| RoutePattern.LiteralPattern | src/server/router.ts:14-16 | a regex-safe literal route matches exactly itself and itself with `/` |
| RoutePattern.BindKeys | src/server/router.ts:19-23 | the bound parameters are keyed by exactly the placeholder names |
| RoutePattern.BindLast | src/server/router.ts:19-23 | a name used twice binds the value of its last occurrence |
| RoutePattern.TokenizeLiteralPrefix | src/server/router.ts:14 | a literal prefix without `:` stays one literal token in front of the rest |
| RoutePattern.LiteralPrefixMatch | src/server/router.ts:14-16 | matching `prefix + rest` is matching `rest` after the literal prefix |
| RoutePattern.IdPattern | src/server/steps/init.ts:46 | `base/:id` has the single placeholder `id`, and it matches `base/seg` capturing `seg` |
| Router.MatchRoute | src/server/router.ts:8-30 | the result is `Dispatch`: the first route in table order whose pattern matches the path and that has a handler for the method, with that handler and the bound parameters; otherwise `null` |
| Router.DispatchFirst | src/server/router.ts:13-25 | when route `i` qualifies and no earlier route does, route `i` is chosen |
| Router.DispatchNone | src/server/router.ts:13-29 | the result is `null` exactly when no route both matches the path and has the method |
| Router.DispatchSource | src/server/router.ts:13-25 | a chosen route is a route of the table that matches the path, has the method, and comes after no other qualifying route; its handler is that route's handler for the method |
| Router.ParamsBinding | src/server/router.ts:19-23 | for `base/:id` and a path `base/seg`, the parameters are exactly `{id: seg}` |
| Router.ParamsKeys | src/server/router.ts:19-22 | the parameters of a match are keyed by the pattern's placeholder names |
| Router.TrailingSlashSameParams | src/server/router.ts:15 | a trailing slash on the path changes neither the match nor the parameters |
| RouteNames.Normalize | src/server/logic/routes.ts:9 | the length is kept, every backslash becomes `/`, and every other character is unchanged |
| RouteNames.IndexRule | src/server/logic/routes.ts:14-18 | the index rule never yields an empty route |
| RouteNames.DetermineRoute | src/server/logic/routes.ts:7-21 | a route name is never empty |
| RouteNames.IndexIsRoot | src/server/logic/routes.ts:14-15 | the name `index` becomes `/` |
| RouteNames.IndexSuffixRemoved | src/server/logic/routes.ts:14-15 | a name ending in `index` loses its first `index` |
| RouteNames.FolderIndex | src/server/logic/routes.ts:14-15 | `folder/index`, with no `index` inside `folder`, becomes `folder/` |
| RouteNames.SubfolderExample | src/server/routing/pages.ts:58-59 | `sub/index` becomes `sub/`, not `/sub` |
| RouteNames.FirstIndexExample | src/server/logic/routes.ts:15 | `index/index` becomes `/index`: the first `index` is removed, not the final one |
| RouteNames.PlainRouteGetsSlash | src/server/logic/routes.ts:16-18 | a name not ending in `index` gets a leading `/` |
| RouteNames.SeparatorInsensitive | src/server/logic/routes.ts:9 | a file named with `\` gets the same route as with `/` |
| RouteNames.PlainFile | src/server/logic/routes.ts:7-21 | `base + name + ext`, with no extension or backslash in `name`, is routed by the index rule on `name` |
| RouteNames.ExtensionAfterName | src/server/logic/routes.ts:11 | an extension that first occurs after the name is the one removed |
| LogicRoutes.DetermineRoute | src/server/logic/routes.ts:7-21 | the rule with base `ENDPOINTS_PROJECT_PATH` and the extensions `.pug`, `.yaml`, `.yml`; never empty |
| LogicRoutes.ExtensionsDistinct | src/server/logic/routes.ts:11 | each extension starts with `.`, and no earlier alternative is a prefix of a later one, so the later one is matched where it occurs |
| LogicRoutes.ConfigFile | src/server/logic/routes.ts:7-21 | `endpoints + name + ext + tail`, for any of the three extensions, becomes the route the index rule gives `name + tail` |
| LogicRoutes.IndexConfigIsRoot | src/server/logic/routes.ts:14-15 | `endpoints/index.yaml` becomes `/` |
| LogicRoutes.IndexPageIsRoot | src/server/logic/routes.ts:14-15 | `endpoints/index.pug` becomes `/` |
| LogicRoutes.MatchRoute | src/server/logic/routes.ts:30-52 | this copy of `matchRoute` is `Router.Dispatch` |
| PageRoutes.DetermineRoute | src/server/routing/pages.ts:51-65 | the rule with base `./src/views/pages/` and extension `.pug`; never empty |
| PageRoutes.PageFile | src/server/requests/pages.ts:20-34 | `./src/views/pages/name.pug` becomes the route the index rule gives `name` |
| PageRoutes.IndexPageIsRoot | src/server/requests/pages.ts:27-28 | `index.pug` becomes `/` |
| PageRoutes.SubfolderIndexPage | src/server/routing/pages.ts:58-59 | `sub/index.pug` becomes `sub/` |
| PageRoutes.NamedPage | src/server.ts:82-96 | `about.pug` becomes `/about` |
| PageRoutes.WindowsPath | src/server/requests/pages.ts:22 | a backslash path gets the same route as its slash form |
| PageRoutes.MatchRoute | src/server/routing/pages.ts:11-33 | this copy of `matchRoute` is `Router.Dispatch` |
| RequestsDatabase.DetermineApiRoute | src/server/requests/database.ts:80-87 | a `/` followed by the file name with separators normalised and the first base directory and first `.yaml` removed; there is no index rule |
| RequestsDatabase.ApiFile | src/server/requests/database.ts:80-87 | `endpoints + name + .yaml + tail` becomes `/name` followed by the tail, for a name without `.` and no backslash anywhere |
| RequestsDatabase.IndexNotSpecial | src/server/requests/database.ts:80-87 | `endpoints/index.yaml` becomes `/index` here, where `LogicRoutes` gives `/` |
| RequestsDatabase.InitDatabaseFromConfig | src/server/requests/database.ts:9-20 | exactly one statement is issued: the `CREATE TABLE` text of the description; the call throws exactly when storage rejects it |
| RequestsDatabase.HandleEntityRequest | src/server/requests/database.ts:25-74 | the reply and the issued statements are those of `EntityHandler.Handled`, including the rejection with nothing issued when `create` or `update` gets a body that is not form data |
| Schema.ColumnWords | src/server/logic/database.ts:12-14 | a column definition starts with the name and the type |
| Schema.ColumnWordsFlags | src/server/logic/database.ts:12-14 | after name and type come `PRIMARY KEY` exactly when the field is a primary key and `AUTOINCREMENT`, last, exactly when it is flagged so, and no other word |
| Schema.ColumnDefText | src/server/logic/database.ts:12-15 | the column text is `name type`, followed by ` PRIMARY KEY` when flagged, then ` AUTOINCREMENT` when flagged |
| Schema.ColumnDefRoundTrip | src/server/logic/database.ts:12-15 | a column definition parses back to its field, flags included |
| Schema.DefsRoundTrip | src/server/logic/database.ts:11-16 | the comma-joined definitions parse back to the field list |
| Schema.CreateTableRoundTrip | src/server/logic/database.ts:10-18 | the `CREATE TABLE IF NOT EXISTS t (…);` text parses back to the whole model: table name and every field in order |
| EntityHandler.FormValues | src/server/logic/database.ts:41-42 | `Object.fromEntries` of the form: distinct keys in order of first appearance, each with the last value it was given |
| EntityHandler.Placeholders | src/server/logic/database.ts:45 | one `?` per column |
| EntityHandler.Assignments | src/server/logic/database.ts:67 | one `k = ?` per key |
| EntityHandler.InitDatabaseFromConfig | src/server/logic/database.ts:8-19 | exactly one statement is issued: the `CREATE TABLE` text of the description; the call throws exactly when storage rejects it |
| EntityHandler.HandleEntityRequest | src/server/logic/database.ts:35-84 | the reply and the new statement log are those of `Handled`, which gives each action's statement and response. When `create` or `update` gets a body that is not form data, the call rejects and issues nothing |
| EntityHandler.RejectionCauses | src/server/logic/database.ts:35-84 | the call rejects exactly when `formData()` rejects for `create` or `update` (nothing is issued then), or when a statement was issued and storage threw. Any reply is 200, 201, 400 or 404 |
| EntityHandler.CreateStatement | src/server/logic/database.ts:40-49 | `create` with a form body inserts the form's distinct keys as columns and their values as bound parameters, and answers 201 |
| EntityHandler.CreateBindsLastValue | src/server/logic/database.ts:41-42 | a field submitted several times is inserted with its last value |
| EntityHandler.NullRequestIsBadRequest | src/server/logic/database.ts:83 | `create` and `update` without a request issue nothing and answer 400 `Bad Request` |
| EntityHandler.ReadReply | src/server/logic/database.ts:57-62 | `read` selects by id and answers the first row, or 404 when there is none |
| EntityHandler.ReadAllIsOk | src/server/logic/database.ts:53-55 | `readAll` answers 200 with all rows, so `response.ok` holds |
| EntityHandler.UpdateBindsIdLast | src/server/logic/database.ts:64-71 | `update` with a form body binds the own-property values in order and then the id. With any other body it rejects and issues nothing |
| EntityHandler.DeleteIsOk | src/server/logic/database.ts:74-77 | `delete` issues `DELETE … WHERE id = ?` with the id and answers 200 |
| EntityHandler.UnknownAction | src/server/logic/database.ts:79-80 | an unknown action issues nothing and answers 400 `Action not supported` |
| EntityHandler.InsertArity | src/server/logic/database.ts:44-47 | the insert text has as many `?` as values are bound |
| EntityHandler.UpdateArity | src/server/logic/database.ts:67-69 | the update text has as many `?` as values are bound, id included |
| EntityHandler.StatementArity | src/server/logic/database.ts:35-84 | every statement the handler issues binds exactly as many values as its text has `?`, when table and keys hold no `?` |
| EntityHandler.ListEntity | src/server/logic/database.ts:24 | one `readAll` call: it logs the select and gives the reply of `Handled` |
| EntityHandler.FetchOne | src/server/logic/database.ts:23-28 | one loop step: on an ok listing the key is set to its rows, and a rejection stops the loop |
| EntityHandler.FetchData | src/server/logic/database.ts:21-30 | it issues one select per key up to the first throwing one. It rejects when one throws, and otherwise gives `Fetched` |
| EntityHandler.FetchStopsAt | src/server/logic/database.ts:24 | when key `i` is the first whose listing throws, exactly the selects of keys `0..i` are issued and the result is a rejection |
| EntityHandler.FetchCompletes | src/server/logic/database.ts:21-30 | without a throw, every key's select is issued and the data is returned |
| EntityHandler.ListingOutcome | src/server/logic/database.ts:24-26 | a key's listing is its rows, or a rejection |
| EntityHandler.FetchedKeys | src/server/logic/database.ts:21-30 | the data's keys are the requested keys, each once, in the order of their first request (`FirstOccurrences`) |
| EntityHandler.FetchedLastListingWins | src/server/logic/database.ts:26 | a key requested twice holds its last listing |
| Service.HandleEntityRequest | src/server/service.ts:25-66 | the reply and the new log are those of `Service.Handled`: create, read, update and delete as in the later copy, but without a request `create` and `update` reject and issue nothing. A body that is not form data makes them reject with nothing issued |
| Service.AgreesWithLater | src/server/service.ts:25-66 | given a request, or for an action that reads none, this copy issues and answers exactly what `src/server/logic/database.ts` does |
| Service.NoBadRequest | src/server/service.ts:28-65 | this copy never answers `Bad Request`; for a missing request the later copy answers 400 where this one rejects |
| Service.InitDatabaseFromConfig | src/server/service.ts:9-20 | exactly one statement is issued: the `CREATE TABLE` text of the description; the call throws exactly when storage rejects it |
| Init.AddBindingEffect | src/server/steps/init.ts:32 | after `addRoute(p, m, h)`, `routes[p][m]` is `h` and every other pattern and method is unchanged |
| Init.RouteTable.AddRoute | src/server/steps/init.ts:32 | the table after `addRoute` is the nested assignment's result |
| Init.Created | src/server/steps/init.ts:18-25 | the number of statements storage accepts before it first rejects one: every earlier answer is rows, and the answer there, if any, a throw |
| Init.CreateDatabase | src/server/steps/init.ts:18-25 | one `CREATE TABLE` per description, in scan order, up to and including the first one storage rejects; the call succeeds exactly when storage accepts them all |
| Init.AddConfigRoutes | src/server/steps/init.ts:44-48 | the table gains the flagged bindings of one description, in source order |
| Init.CreateRoutes | src/server/steps/init.ts:27-65 | the pages' GET bindings and then each description's bindings are added in scan order. Then `/` GET becomes the todo home when `/` is already a pattern; otherwise the call fails and the table is left as built |
| Init.Startup | src/server/steps/init.ts:9-13 | the tables are created before the routes: a rejected `CREATE TABLE` makes `init` fail with the route table untouched; otherwise the routes are those of `createRoutes`, which may still fail at `/` |
| Init.ConfigRoutes | src/server/steps/init.ts:44-48 | after one description, `routes[base]` POST/GET and `routes[base/:id]` GET/PUT/DELETE hold its entity's handlers exactly when flagged, and everything else is unchanged; with no flag the table is unchanged |
| Init.AddAllLast | src/server/steps/init.ts:31-49 | a pattern and method bound several times keep the last handler |
| Init.AddAllUnbound | src/server/steps/init.ts:31-49 | a pattern and method never bound keep their earlier handler |
| Init.AddAllKeys | src/server/steps/init.ts:31-49 | earlier patterns keep their order, and patterns stay distinct |
| Init.AddAllPatterns | src/server/steps/init.ts:31-49 | afterwards, the patterns are exactly the earlier ones and those bound |
| Init.PagesFirst | src/server/steps/init.ts:31-49 | the page patterns come before the API patterns; from an empty table, the patterns are those bound, each once, in the order of their first binding |
| Init.AddAllKeyOrder | src/server/steps/init.ts:31-49 | from an empty table, the patterns after a sequence of `addRoute` calls are the bound patterns in the order of their first binding, each once |
| Init.HomeRoute | src/server/steps/init.ts:51 | assigning the home handler succeeds exactly when `/` is a pattern; it leaves the patterns as they are and changes only `/` GET, to the todo home |
| Init.HomeNeedsRoot | src/server/steps/init.ts:51 | the `/` assignment at the end of `createRoutes` fails exactly when `/` was not already a pattern and no page or API binding has the pattern `/` |
| Init.IndexPageGivesHome | src/server/steps/init.ts:28-51 | an `index.pug` directly in the endpoints directory makes the `/` assignment at the end of `createRoutes` succeed |
| Init.Invoke | src/server/steps/init.ts:41-60 | a page answers 200 with its file and issues nothing; the home handler selects every todo; only an entity handler answers anything but 200, and it gets the route's `id` parameter |
| Init.HomeNever500 | src/server/steps/init.ts:51-60 | the home handler selects every todo. It renders the index page with the rows, or rejects when storage throws. It never answers 500 |
| Init.ItemRouteId | src/server/steps/init.ts:41-48 | for `base/:id` and path `base/seg`, the router binds `{id: seg}` and the entity handler gets id `seg` |
| Init.CollectionRouteNoId | src/server/steps/init.ts:41-45 | on a collection route, no parameters are bound and the entity handler gets no id |
| PageServer.DetermineRoute | server.ts:15-29 | the rule with base `./src/views/` and extension `.pug`; never empty |
| PageServer.BuildRoutes | server.ts:32-38 | the table is the files' assignments applied in scan order |
| PageServer.NotFoundIffUnrouted | server.ts:44-51 | a path gets 404 exactly when no page file is routed to it |
| PageServer.LaterPageWins | server.ts:35-38 | of several files routed to the same path, the last one scanned is served |
| PageServer.Serve | server.ts:44-51 | a path gets 404 `Not Found` exactly when it is not a key of the table; otherwise 200 with the page stored under it |
| PageServer.RoutesInScanOrder | server.ts:35-38 | every route appears once, in the order its first file was scanned (`FirstOccurrences` of the scanned routes), and the routes are exactly the files' routes |
| PageServer.ViewFile | server.ts:15-29 | `./src/views/name.pug` is served under the route the index rule gives `name` |
| TodoServer.BuildRoutes | src/server.ts:12-50 | the pages' assignments and then `/todos`, `/todos/:id` and `/` |
| TodoServer.FormGet | src/server.ts:23-24 | the first form value of a field, if any |
| TodoServer.LastSegment | src/server.ts:36 | `split("/").pop()`: the text after the last `/` |
| TodoServer.FixedRoutes | src/server.ts:20-50 | `/todos`, `/todos/:id` and `/` have their fixed handlers, whatever pages exist |
| TodoServer.OtherPaths | src/server.ts:15-59 | every other path is unrouted or a page |
| TodoServer.ItemOnlyAtLiteralKey | src/server.ts:34-59 | the item handler is reached by the path `/todos/:id` and by no other |
| TodoServer.ItemIdIsNaN | src/server.ts:34-41 | so a DELETE through it always deletes id `NaN`, and answers 200 with no body unless `deleteToDo` throws, when it rejects |
| TodoServer.LastSegmentAfterSlash | src/server.ts:36 | the last segment of `dir/seg` is `seg` |
| TodoServer.WrongMethod | src/server.ts:31-43 | a method other than the one a fixed route serves gets 405 and has no effect |
| TodoServer.Respond | src/server.ts:20-50 | only a POST with a form body to `/todos` creates, only a DELETE on `/todos/:id` deletes, only the home handler lists the todos; a handler rejects exactly when it is a POST whose body is not form data or when the storage call it makes (create, delete, or the home listing) throws; every reply is 200 or 405, and 405 exactly for the wrong method on a fixed route |
| TodoServer.Serve | src/server.ts:56-59 | a path that is not a key of the table gets 404 `Not Found` and has no effect; any other path is answered by its handler |
| TodoServer.PostDefaults | src/server.ts:21-28 | a POST with a form body creates a todo with the first title and status given, or `Untitled` / `Pending` when these are missing or empty, and renders `task.pug` with the new id, title and status, unless `createToDo` throws, when it rejects. A POST with any other body rejects and creates nothing |
| TodoServer.ParseInt | src/server.ts:36 | `parseInt(s, 10)` is `NaN` exactly when no digit follows the optional sign; only a leading `-` gives a negative number, and a leading `-` never gives a positive one |
| TodoServer.ParseIntDigits | src/server.ts:36 | `parseInt` reads back a run of decimal digits followed by a non-digit |
| TodoServer.ParseIntSigned | src/server.ts:36 | after a `-` the same run reads back negated, after a `+` unchanged |
| ApiServer.AddConfigRoutes | src/server/server.ts:41-60 | the table is the description's flagged assignments applied in source order |
| ApiServer.AddPageRoutes | src/server/server.ts:25-28 | the table is the pages' assignments applied in scan order |
| ApiServer.AddApiRoutes | src/server/server.ts:31-61 | the table is every description's assignments applied in scan order |
| ApiServer.Assemble | src/server/server.ts:11-72 | one `CREATE TABLE` per description up to the first that storage rejects; there is a route table exactly when storage accepts them all, and it is then pages, API routes and `/`, as `Routes` |
| ApiServer.ConfigPaths | src/server/server.ts:41-60 | on the collection path `readAll` beats `create`; on the item path `delete` beats `update`, which beats `read`; other paths keep their handler |
| ApiServer.RouteOrder | src/server/server.ts:25-72 | `/` is always the todo home. Paths appear once each, in the order of their first assignment, so the page paths come first in scan order. `/` keeps a page's place, or else comes last |
| ApiServer.HomeNever500 | src/server/server.ts:63-72 | the home handler selects every todo. It renders `./src/views/pages/index.pug` with the rows, or rejects when storage throws. It never answers 500 |
| ApiServer.Invoke | src/server/server.ts:41-72 | a page answers 200 with its file and issues nothing; the `/` handler selects every todo; only an entity handler answers anything but 200; collection handlers get no id, item handlers the route's `id` parameter |
| ApiServer.Fetch | src/server/server.ts:77-87 | as written, every request is answered 404 `Not Found`, whatever the table holds |
| ApiServer.CollectionIgnoresParams | src/server/server.ts:41-48 | collection handlers answer the same whatever parameters they get, with no id |

## Left out

- SQLite itself, pug rendering, `Glob` scans, YAML parsing, `Bun.serve`,
  the file `serve.ts` and console logging are not modelled. Storage's
  answers, the rendered page, the scanned file lists and the parsed
  descriptions are inputs or opaque values.
- Asynchrony is not modelled. Awaited calls are sequential, and a rejected
  promise is the reply `None`.
- JSON encoding of rows is not modelled; a JSON body carries the rows
  themselves.
- Full regular expressions are not modelled. The router's regex is modelled
  for route patterns made of literal text and `:name` placeholders. A
  pattern whose literal text holds regex metacharacters is excluded by the
  precondition `Router.SafeTable`.
- JavaScript object quirks are not modelled: inherited prototype keys, and
  the ordering of keys that look like integers ahead of the others.
- `src/service.ts` (the todo storage helpers `createToDo`, `deleteToDo` and
  `readToDoList`) is not part of this model. `TodoServer` reports its calls
  as effects. The id and the list they resolve to, and whether they throw,
  are inputs. `initDatabase` of that file is not modelled.
- `TodoServer.ParseInt`: leading whitespace, which `parseInt` skips, is
  not modelled. Nor is the precision of JavaScript numbers above 2^53, or
  `-0`. Digits are read as an unbounded integer.
- Which bodies `req.formData()` accepts (content type, encoding) is not
  modelled. A request carries either the parsed form or `None`.
- File uploads are not modelled. Every form entry is a string, whereas a
  `FormData` entry can also be a `File`. `formData.get(...)?.toString()`
  then gives `"[object File]"`, and `Object.fromEntries` binds the `File`
  object itself.
- `EntityHandler.UpdateBindsIdLast`: `Object.keys(formData)` of a `FormData`
  object is the request's own-property list `ownProps`, an input, rather
  than derived from the form.
- `Init.HomeReply`: an ok response whose body is not a row list gives
  `None`; after `readAll` that case does not arise.
- `Init.CreateRoutes`: the routes already in `routes` before start-up are a
  parameter, since the module-level table's earlier contents are not fixed
  by the source.
- A `.yml` file is not discovered by the scan `**/*.yaml`; the model takes
  the list of API files as given.
