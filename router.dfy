/**
 * The route matcher of src/server/router.ts. A route table is a JavaScript
 * object from route pattern to an object from HTTP method to handler; its
 * keys all start with `/`, so `for...in` visits them in insertion order and
 * the table is an insertion-ordered dictionary here. Handlers are opaque.
 */
module Router {
  import opened Wrappers
  import opened Assoc
  import opened RoutePattern

  type Table<H> = Dict<map<string, H>>

  datatype RouteMatch<H> = RouteMatch(handler: H, params: map<string, string>)

  /** Every pattern can be spliced into a regular expression as text. */
  predicate SafeTable<H>(table: Table<H>) {
    forall i :: 0 <= i < |table| ==> RegexSafe(table[i].0)
  }

  /** The route's pattern admits the path and the route has a handler for
      the method. */
  predicate Qualifies<H>(route: (string, map<string, H>), verb: string, path: string) {
    MatchPath(Tokenize(route.0), path).Some? && verb in route.1
  }

  /** The parameters a matching path binds: placeholder names to captures. */
  function Params(pattern: string, path: string): map<string, string>
    requires MatchPath(Tokenize(pattern), path).Some?
  {
    var ts := Tokenize(pattern);
    Bind(HoleNames(ts), MatchPath(ts, path).value)
  }

  /** The result of the first qualifying route in table order. */
  function Dispatch<H>(table: Table<H>, verb: string, path: string): Option<RouteMatch<H>>
  {
    if table == [] then None
    else if Qualifies(table[0], verb, path) then
      Some(RouteMatch(table[0].1[verb], Params(table[0].0, path)))
    else Dispatch(table[1..], verb, path)
  }

  /** `matchRoute(method, path, routes)`. */
  method MatchRoute<H>(verb: string, path: string, table: Table<H>) returns (r: Option<RouteMatch<H>>)
    requires SafeTable(table)
    ensures r == Dispatch(table, verb, path)
  {
    var i := 0;
    while i < |table|
      invariant 0 <= i <= |table|
      invariant Dispatch(table[i..], verb, path) == Dispatch(table, verb, path)
    {
      assert table[i..][0] == table[i] && table[i..][1..] == table[i + 1..];
      var route := table[i].0;
      var ts := Tokenize(route);
      var m := MatchPath(ts, path);
      if m.Some? && verb in table[i].1 {
        var names := HoleNames(ts);
        var caps := m.value;
        var params: map<string, string> := map[];
        for k := 0 to |names|
          invariant params == Bind(names[..k], caps[..k])
        {
          assert names[..k + 1][..k] == names[..k] && caps[..k + 1][..k] == caps[..k];
          params := params[names[k] := caps[k]];
        }
        assert names[..|names|] == names && caps[..|caps|] == caps;
        return Some(RouteMatch(table[i].1[verb], params));
      }
      i := i + 1;
    }
    return None;
  }

  /** The first qualifying route decides the result. */
  lemma {:induction false} DispatchFirst<H>(table: Table<H>, verb: string, path: string, i: nat)
    requires i < |table| && Qualifies(table[i], verb, path)
    requires forall j :: 0 <= j < i ==> !Qualifies(table[j], verb, path)
    ensures Dispatch(table, verb, path) == Some(RouteMatch(table[i].1[verb], Params(table[i].0, path)))
    decreases i
  {
    if i > 0 {
      assert !Qualifies(table[0], verb, path);
      forall j | 0 <= j < i - 1 ensures !Qualifies(table[1..][j], verb, path) {
        assert table[1..][j] == table[j + 1];
      }
      DispatchFirst(table[1..], verb, path, i - 1);
    }
  }

  /** Nothing matches exactly when no route qualifies: a route whose pattern
      admits the path but lacks the method does not end the search. */
  lemma {:induction false} DispatchNone<H>(table: Table<H>, verb: string, path: string)
    ensures Dispatch(table, verb, path).None? <==>
              forall i :: 0 <= i < |table| ==> !Qualifies(table[i], verb, path)
    decreases |table|
  {
    if table != [] {
      DispatchNone(table[1..], verb, path);
      if !Qualifies(table[0], verb, path) {
        forall i | 0 < i < |table| ensures table[1..][i - 1] == table[i] { }
      }
    }
  }

  /** Every result comes from a qualifying route with no qualifying route
      before it, so in particular from a route with a handler for the method. */
  lemma {:induction false} DispatchSource<H>(table: Table<H>, verb: string, path: string)
    requires Dispatch(table, verb, path).Some?
    ensures exists i :: 0 <= i < |table| && Qualifies(table[i], verb, path)
              && (forall j :: 0 <= j < i ==> !Qualifies(table[j], verb, path))
              && Dispatch(table, verb, path).value
                 == RouteMatch(table[i].1[verb], Params(table[i].0, path))
    decreases |table|
  {
    if !Qualifies(table[0], verb, path) {
      DispatchSource(table[1..], verb, path);
      var i :| 0 <= i < |table[1..]| && Qualifies(table[1..][i], verb, path)
               && (forall j :: 0 <= j < i ==> !Qualifies(table[1..][j], verb, path))
               && Dispatch(table[1..], verb, path).value
                  == RouteMatch(table[1..][i].1[verb], Params(table[1..][i].0, path));
      forall j | 0 <= j < i + 1 ensures !Qualifies(table[j], verb, path) {
        if j > 0 { assert table[j] == table[1..][j - 1]; }
      }
      assert table[i + 1] == table[1..][i];
    } else {
      assert Qualifies(table[0], verb, path);
    }
  }

  /** The i-th placeholder name is bound to the i-th capture (the last one
      wins when a name repeats); the bound names are exactly the placeholder
      names, and every captured value is a non-empty run without `/`. */
  lemma ParamsBinding(pattern: string, path: string, i: nat)
    requires MatchPath(Tokenize(pattern), path).Some?
    requires i < |HoleNames(Tokenize(pattern))|
    requires forall j :: i < j < |HoleNames(Tokenize(pattern))| ==>
               HoleNames(Tokenize(pattern))[j] != HoleNames(Tokenize(pattern))[i]
    ensures HoleNames(Tokenize(pattern))[i] in Params(pattern, path)
    ensures Params(pattern, path)[HoleNames(Tokenize(pattern))[i]]
              == MatchPath(Tokenize(pattern), path).value[i]
    ensures IsSegmentText(Params(pattern, path)[HoleNames(Tokenize(pattern))[i]])
  {
    var ts := Tokenize(pattern);
    var caps := MatchPath(ts, path).value;
    BindLast(HoleNames(ts), caps, i);
    assert IsSegmentText(caps[i]) by {
      if CoreMatch(ts, path).None? {
        assert caps == CoreMatch(ts, path[..|path| - 1]).value;
      }
    }
  }

  /** The bound names are exactly the placeholder names; a pattern without
      placeholders binds none. */
  lemma ParamsKeys(pattern: string, path: string)
    requires MatchPath(Tokenize(pattern), path).Some?
    ensures forall x :: x in Params(pattern, path) <==> x in HoleNames(Tokenize(pattern))
    ensures HoleNames(Tokenize(pattern)) == [] ==> Params(pattern, path) == map[]
  {
    var ts := Tokenize(pattern);
    BindKeys(HoleNames(ts), MatchPath(ts, path).value);
  }

  /** A path with one `/` appended is routed like the path itself; a further
      segment appended is not. */
  lemma TrailingSlashSameParams(pattern: string, path: string, extra: string)
    requires CoreMatch(Tokenize(pattern), path).Some?
    requires IsSegmentText(extra)
    ensures MatchPath(Tokenize(pattern), path).Some?
    ensures MatchPath(Tokenize(pattern), path + "/").Some?
    ensures Params(pattern, path + "/") == Params(pattern, path)
    ensures MatchPath(Tokenize(pattern), path + "/" + extra).None?
  {
    TrailingSlash(Tokenize(pattern), path);
    NoExtraSegment(Tokenize(pattern), path, extra);
  }
}
