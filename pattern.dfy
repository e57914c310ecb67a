/**
 * Route patterns as the router reads them. A pattern string is tokenised the
 * way the global regular expression `/:([^/]+)/g` scans it: a `:` followed by
 * at least one character other than `/` starts a placeholder that runs to the
 * next `/` (or the end), and every other character is literal text. A path
 * matches when it equals the pattern with every placeholder replaced by a
 * non-empty run of non-`/` characters, optionally followed by one `/`: the
 * regular expression `^<pattern>(/)?$` with `([^/]+)` for each placeholder.
 */
module RoutePattern {
  import opened Wrappers

  datatype Token = Lit(c: char) | Hole(name: string)

  /** The text `[^/]+` accepts. */
  predicate IsSegmentText(s: string) {
    s != [] && '/' !in s
  }

  /** Length of the longest prefix of `s` without a `/`. */
  function RunLength(s: string): (n: nat)
    ensures n <= |s|
    ensures forall i :: 0 <= i < n ==> s[i] != '/'
    ensures n < |s| ==> s[n] == '/'
  {
    if s == [] || s[0] == '/' then 0 else 1 + RunLength(s[1..])
  }

  /** Every placeholder has a proper name and is followed by a literal `/` or
      ends the pattern. */
  ghost predicate WellFormed(ts: seq<Token>) {
    && (forall i :: 0 <= i < |ts| && ts[i].Hole? ==> IsSegmentText(ts[i].name))
    && (forall i, j :: 0 <= i && j == i + 1 && j < |ts| && ts[i].Hole? ==> ts[j] == Lit('/'))
  }

  /** The tokens of a pattern, scanned left to right: a `:` followed by a
      character other than `/` opens a placeholder named by the run up to
      the next `/` (`TokenizeHole`); any other character is literal
      (`TokenizeLiteral`). */
  function Tokenize(p: string): seq<Token>
    decreases |p|
  {
    if p == [] then []
    else if p[0] == ':' && |p| > 1 && p[1] != '/' then
      var n := RunLength(p[1..]);
      [Hole(p[1..1 + n])] + Tokenize(p[1 + n..])
    else
      [Lit(p[0])] + Tokenize(p[1..])
  }

  /** Every placeholder the scan produces has a proper name and is followed
      by a literal `/` or ends the pattern. */
  lemma {:induction false} TokenizeWellFormed(p: string)
    ensures WellFormed(Tokenize(p))
    decreases |p|
  {
    if p == [] {
    } else if p[0] == ':' && |p| > 1 && p[1] != '/' {
      var n := RunLength(p[1..]);
      var name, tail := p[1..1 + n], p[1 + n..];
      HoleSplit(p);
      TokenizeWellFormed(tail);
      if tail != [] {
        TokenizeLiteral(tail);
      }
      WellFormedCons(Hole(name), Tokenize(tail));
    } else {
      TokenizeLiteral(p);
      TokenizeWellFormed(p[1..]);
      WellFormedCons(Lit(p[0]), Tokenize(p[1..]));
    }
  }

  /** A pattern opening with a placeholder: its name, and the rest of the
      pattern after it, which is empty or starts with `/`. */
  lemma HoleSplit(p: string)
    requires |p| > 1 && p[0] == ':' && p[1] != '/'
    ensures var n := RunLength(p[1..]);
            var name, tail := p[1..1 + n], p[1 + n..];
            && p == ":" + name + tail
            && IsSegmentText(name)
            && (tail == [] || tail[0] == '/')
            && Tokenize(p) == [Hole(name)] + Tokenize(tail)
  {
    var n := RunLength(p[1..]);
    var name, tail := p[1..1 + n], p[1 + n..];
    HoleName(p);
    assert tail != [] ==> tail[0] == p[1..][n];
    assert p == ":" + name + tail;
    TokenizeHole(name, tail);
  }

  /** The name after a colon is a non-empty run without `/`. */
  lemma HoleName(p: string)
    requires |p| > 1 && p[1] != '/'
    ensures IsSegmentText(p[1..1 + RunLength(p[1..])])
  {
    var n := RunLength(p[1..]);
    var name := p[1..1 + n];
    assert name[0] == p[1..][0];
    forall i | 0 <= i < n ensures name[i] != '/' { assert name[i] == p[1..][i]; }
  }

  /** The run of non-`/` characters in front of a `/` or the end is the whole
      run. */
  lemma {:induction false} RunLengthOf(name: string, rest: string)
    requires '/' !in name && (rest == [] || rest[0] == '/')
    ensures RunLength(name + rest) == |name|
    decreases |name|
  {
    if name == [] {
      assert name + rest == rest;
    } else {
      assert name[0] in name;
      assert (name + rest)[1..] == name[1..] + rest;
      assert forall c :: c in name[1..] ==> c in name;
      RunLengthOf(name[1..], rest);
    }
  }

  /** A `:` followed by a proper name that runs to a `/` or the end of the
      pattern is one placeholder carrying that whole name. */
  lemma TokenizeHole(name: string, rest: string)
    requires IsSegmentText(name) && (rest == [] || rest[0] == '/')
    ensures Tokenize(":" + name + rest) == [Hole(name)] + Tokenize(rest)
  {
    var p := ":" + name + rest;
    assert p[1..] == name + rest;
    RunLengthOf(name, rest);
    assert p[1] == name[0];
    assert p[1..1 + |name|] == name;
    assert p[1 + |name|..] == rest;
  }

  /** Any other character, including a `:` with no name after it, is one
      literal token. */
  lemma TokenizeLiteral(p: string)
    requires p != [] && !(p[0] == ':' && |p| > 1 && p[1] != '/')
    ensures Tokenize(p) == [Lit(p[0])] + Tokenize(p[1..])
  {
  }

  /** A token in front of a well-formed list keeps it well formed when a
      placeholder is properly named and followed by `/` or nothing. */
  lemma WellFormedCons(t: Token, rest: seq<Token>)
    requires WellFormed(rest)
    requires t.Hole? ==> IsSegmentText(t.name) && (rest == [] || rest[0] == Lit('/'))
    ensures WellFormed([t] + rest)
  {
    var ts := [t] + rest;
    forall i | 0 <= i < |ts| && ts[i].Hole? ensures IsSegmentText(ts[i].name) {
      if i > 0 { assert ts[i] == rest[i - 1]; }
    }
    forall i, j | 0 <= i && j == i + 1 && j < |ts| && ts[i].Hole? ensures ts[j] == Lit('/') {
      if i > 0 { assert ts[i] == rest[i - 1] && ts[j] == rest[j - 1]; }
    }
  }

  /** Writes a token list back as pattern text. */
  function Render(ts: seq<Token>): string {
    if ts == [] then ""
    else
      (match ts[0]
       case Lit(c) => [c]
       case Hole(name) => ":" + name) + Render(ts[1..])
  }

  /** Rendering a token in front of others writes it in front of them. */
  lemma RenderStep(t: Token, ts: seq<Token>)
    ensures Render([t] + ts) == (match t case Lit(c) => [c] case Hole(name) => ":" + name) + Render(ts)
  {
    assert ([t] + ts)[0] == t && ([t] + ts)[1..] == ts;
  }

  /** Tokenising loses nothing: the tokens spell the pattern. */
  lemma {:induction false} RenderTokenize(p: string)
    ensures Render(Tokenize(p)) == p
    decreases |p|
  {
    if p == [] {
    } else if p[0] == ':' && |p| > 1 && p[1] != '/' {
      RenderTokenize(p[1 + RunLength(p[1..])..]);
      RenderHole(p);
    } else {
      RenderTokenize(p[1..]);
      RenderLiteral(p);
    }
  }

  /** The step of `RenderTokenize` at a placeholder. */
  lemma RenderHole(p: string)
    requires |p| > 1 && p[0] == ':' && p[1] != '/'
    requires Render(Tokenize(p[1 + RunLength(p[1..])..])) == p[1 + RunLength(p[1..])..]
    ensures Render(Tokenize(p)) == p
  {
    var n := RunLength(p[1..]);
    var name, tail := p[1..1 + n], p[1 + n..];
    HoleSplit(p);
    RenderStep(Hole(name), Tokenize(tail));
  }

  /** The step of `RenderTokenize` at a literal character. */
  lemma RenderLiteral(p: string)
    requires p != [] && !(p[0] == ':' && |p| > 1 && p[1] != '/')
    requires Render(Tokenize(p[1..])) == p[1..]
    ensures Render(Tokenize(p)) == p
  {
    TokenizeLiteral(p);
    RenderStep(Lit(p[0]), Tokenize(p[1..]));
    assert p == [p[0]] + p[1..];
  }

  function HoleNames(ts: seq<Token>): (names: seq<string>) {
    if ts == [] then []
    else (if ts[0].Hole? then [ts[0].name] else []) + HoleNames(ts[1..])
  }

  /** Deterministic matcher: each placeholder takes the whole run of non-`/`
      characters in front of it. Returns the captured texts in order. */
  function CoreMatch(ts: seq<Token>, path: string): (r: Option<seq<string>>)
    ensures r.Some? ==> |r.value| == |HoleNames(ts)|
    ensures r.Some? ==> forall i :: 0 <= i < |r.value| ==> IsSegmentText(r.value[i])
    decreases |ts|
  {
    if ts == [] then (if path == [] then Some([]) else None)
    else match ts[0]
      case Lit(c) =>
        if path != [] && path[0] == c then CoreMatch(ts[1..], path[1..]) else None
      case Hole(_) =>
        var n := RunLength(path);
        if n == 0 then None
        else match CoreMatch(ts[1..], path[n..])
          case None => None
          case Some(caps) =>
            assert IsSegmentText(path[..n]) by {
              forall i | 0 <= i < n ensures path[..n][i] != '/' { }
              assert path[..n][0] == path[0];
            }
            Some([path[..n]] + caps)
  }

  /** The backtracking reading of the same regular expression: any split of
      the path that gives every placeholder some non-empty run of non-`/`
      characters. */
  ghost predicate Matches(ts: seq<Token>, path: string, caps: seq<string>)
    decreases |ts|
  {
    if ts == [] then path == [] && caps == []
    else match ts[0]
      case Lit(c) => path != [] && path[0] == c && Matches(ts[1..], path[1..], caps)
      case Hole(_) =>
        && caps != []
        && IsSegmentText(caps[0])
        && |caps[0]| <= |path|
        && path[..|caps[0]|] == caps[0]
        && Matches(ts[1..], path[|caps[0]|..], caps[1..])
  }

  lemma WellFormedTail(ts: seq<Token>)
    requires ts != [] && WellFormed(ts)
    ensures WellFormed(ts[1..])
  {
    var tail := ts[1..];
    forall i | 0 <= i < |tail| && tail[i].Hole?
      ensures IsSegmentText(tail[i].name)
    {
      assert tail[i] == ts[i + 1];
    }
    forall i, j | 0 <= i && j == i + 1 && j < |tail| && tail[i].Hole?
      ensures tail[j] == Lit('/')
    {
      assert tail[i] == ts[i + 1] && tail[j] == ts[j + 1];
    }
  }

  /** On well-formed patterns the deterministic matcher finds exactly the
      splits the backtracking reading admits. */
  lemma {:induction false} CoreMatchIffMatches(ts: seq<Token>, path: string, caps: seq<string>)
    requires WellFormed(ts)
    ensures CoreMatch(ts, path) == Some(caps) <==> Matches(ts, path, caps)
    decreases |ts|
  {
    if ts != [] {
      WellFormedTail(ts);
      match ts[0]
      case Lit(c) =>
        if path != [] && path[0] == c {
          CoreMatchIffMatches(ts[1..], path[1..], caps);
        }
      case Hole(_) =>
        var n := RunLength(path);
        if n > 0 && caps != [] {
          CoreMatchIffMatches(ts[1..], path[n..], caps[1..]);
          assert caps == [caps[0]] + caps[1..];
        }
        if Matches(ts, path, caps) {
          HoleTakesRun(ts, path, caps);
        }
    }
  }

  /** Under a well-formed pattern a placeholder can only take the whole run
      of non-`/` characters in front of it. */
  lemma HoleTakesRun(ts: seq<Token>, path: string, caps: seq<string>)
    requires WellFormed(ts) && ts != [] && ts[0].Hole?
    requires Matches(ts, path, caps)
    ensures |caps[0]| == RunLength(path)
  {
    var m := |caps[0]|;
    if |ts| == 1 {
      assert path[m..] == [];
    } else {
      assert ts[1] == Lit('/');
      assert ts[1..][0] == ts[1];
      assert path[m..][0] == path[m];
    }
    forall i | 0 <= i < m ensures path[i] != '/' {
      assert path[..m][i] == path[i];
    }
    RunLengthUnique(path, m);
  }

  lemma RunLengthUnique(s: string, m: nat)
    requires m <= |s|
    requires forall i :: 0 <= i < m ==> s[i] != '/'
    requires m == |s| || s[m] == '/'
    ensures RunLength(s) == m
  {
  }

  /** Number of literal `/` characters in a pattern. */
  function LiteralSlashes(ts: seq<Token>): nat {
    if ts == [] then 0
    else (if ts[0] == Lit('/') then 1 else 0) + LiteralSlashes(ts[1..])
  }

  /** A matched path has exactly the pattern's literal slashes: captures hold none. */
  lemma {:induction false} CoreMatchSlashes(ts: seq<Token>, path: string)
    ensures CoreMatch(ts, path).Some? ==> multiset(path)['/'] == LiteralSlashes(ts)
    decreases |ts|
  {
    if ts != [] && path != [] {
      match ts[0]
      case Lit(c) =>
        CoreMatchSlashes(ts[1..], path[1..]);
        assert path == [path[0]] + path[1..];
      case Hole(_) =>
        var n := RunLength(path);
        CoreMatchSlashes(ts[1..], path[n..]);
        assert path == path[..n] + path[n..];
        forall i | 0 <= i < n ensures path[..n][i] != '/' { }
        assert '/' !in multiset(path[..n]);
    }
  }

  /** The full regular expression `^<pattern>(/)?$`. */
  function MatchPath(ts: seq<Token>, path: string): (r: Option<seq<string>>)
    ensures r.Some? ==> |r.value| == |HoleNames(ts)|
  {
    match CoreMatch(ts, path)
    case Some(caps) => Some(caps)
    case None =>
      if path != [] && path[|path| - 1] == '/' then CoreMatch(ts, path[..|path| - 1]) else None
  }

  /** The regular expression admits a path with or without one trailing `/`,
      and never both readings at once, so the captures are determined. */
  lemma MatchPathIffRegex(ts: seq<Token>, path: string, caps: seq<string>)
    requires WellFormed(ts)
    ensures MatchPath(ts, path) == Some(caps) <==>
              Matches(ts, path, caps)
              || (path != [] && path[|path| - 1] == '/' && Matches(ts, path[..|path| - 1], caps))
  {
    CoreMatchIffMatches(ts, path, caps);
    if path != [] && path[|path| - 1] == '/' {
      var shorter := path[..|path| - 1];
      CoreMatchIffMatches(ts, shorter, caps);
      assert path == shorter + "/";
      OneReading(ts, shorter);
    }
  }

  /** A path and the same path with `/` appended never both match exactly. */
  lemma OneReading(ts: seq<Token>, path: string)
    ensures CoreMatch(ts, path).Some? ==> CoreMatch(ts, path + "/").None?
  {
    var longer := path + "/";
    CoreMatchSlashes(ts, path);
    CoreMatchSlashes(ts, longer);
    assert multiset(longer)['/'] == multiset(path)['/'] + 1;
  }

  /** Matching is anchored with one optional trailing `/`: a path that matches
      the pattern exactly also matches with a `/` appended, with the same
      captures. */
  lemma TrailingSlash(ts: seq<Token>, path: string)
    requires CoreMatch(ts, path).Some?
    ensures MatchPath(ts, path) == CoreMatch(ts, path)
    ensures MatchPath(ts, path + "/") == CoreMatch(ts, path)
  {
    var longer := path + "/";
    assert longer[..|longer| - 1] == path;
    OneReading(ts, path);
  }

  /** ... but not with a further segment appended. */
  lemma NoExtraSegment(ts: seq<Token>, path: string, extra: string)
    requires CoreMatch(ts, path).Some?
    requires IsSegmentText(extra)
    ensures MatchPath(ts, path + "/" + extra) == None
  {
    var longer := path + "/" + extra;
    assert longer[|longer| - 1] == extra[|extra| - 1];
    assert extra[|extra| - 1] in extra;
    CoreMatchSlashes(ts, path);
    CoreMatchSlashes(ts, longer);
    assert multiset(longer)['/'] == multiset(path)['/'] + 1 + multiset(extra)['/'];
  }

  /** A pattern without placeholders matches exactly its own text, with or
      without one trailing `/`. */
  lemma {:induction false} LiteralCoreMatch(ts: seq<Token>, path: string)
    requires HoleNames(ts) == []
    ensures CoreMatch(ts, path).Some? <==> path == Render(ts)
    decreases |ts|
  {
    if ts != [] {
      assert ts[0].Lit?;
      assert HoleNames(ts[1..]) == [];
      if path != [] {
        LiteralCoreMatch(ts[1..], path[1..]);
        assert path == [path[0]] + path[1..];
      }
    }
  }

  /** A placeholder-free pattern admits exactly its text, with or without one
      trailing `/`. */
  lemma LiteralPattern(pattern: string, path: string)
    requires HoleNames(Tokenize(pattern)) == []
    ensures MatchPath(Tokenize(pattern), path).Some? <==> path == pattern || path == pattern + "/"
  {
    RenderTokenize(pattern);
    LiteralMatchPath(Tokenize(pattern), path);
  }

  /** `LiteralPattern` stated on the token list. */
  lemma LiteralMatchPath(ts: seq<Token>, path: string)
    requires HoleNames(ts) == []
    ensures MatchPath(ts, path).Some? <==> path == Render(ts) || path == Render(ts) + "/"
  {
    var text := Render(ts);
    LiteralCoreMatch(ts, path);
    if path != [] && path[|path| - 1] == '/' {
      var shorter := path[..|path| - 1];
      LiteralCoreMatch(ts, shorter);
      assert path == shorter + "/";
    }
    if path == text + "/" {
      assert path[..|path| - 1] == text;
    }
  }

  /** `params[names[i]] = captures[i]` for i = 0, 1, ... in order. */
  function Bind(names: seq<string>, caps: seq<string>): map<string, string>
    requires |names| == |caps|
    decreases |names|
  {
    if names == [] then map[]
    else
      var n := |names| - 1;
      Bind(names[..n], caps[..n])[names[n] := caps[n]]
  }

  /** The bound names are exactly the placeholder names. */
  lemma {:induction false} BindKeys(names: seq<string>, caps: seq<string>)
    requires |names| == |caps|
    ensures forall x :: x in Bind(names, caps) <==> x in names
    decreases |names|
  {
    if names != [] {
      var n := |names| - 1;
      BindKeys(names[..n], caps[..n]);
      assert names == names[..n] + [names[n]];
    }
  }

  /** A name is bound to the capture of its last placeholder; with distinct
      names, the i-th name to the i-th capture. */
  lemma {:induction false} BindLast(names: seq<string>, caps: seq<string>, i: nat)
    requires |names| == |caps| && i < |names|
    requires forall j :: i < j < |names| ==> names[j] != names[i]
    ensures names[i] in Bind(names, caps) && Bind(names, caps)[names[i]] == caps[i]
    decreases |names|
  {
    var n := |names| - 1;
    if i < n {
      BindLast(names[..n], caps[..n], i);
    }
  }

  /** The literal text of the pattern contains no character the regular
      expression syntax would read specially (the pattern text is spliced
      into the regular expression unescaped). */
  predicate RegexSafe(pattern: string) {
    var ts := Tokenize(pattern);
    forall i :: 0 <= i < |ts| && ts[i].Lit? ==> ts[i].c !in "\\^$.*+?()[]{}|"
  }

  /** The tokens of text read literally, followed by `ts`. */
  function Lits(s: string, ts: seq<Token>): (r: seq<Token>)
    ensures |r| == |s| + |ts|
  {
    if s == [] then ts else [Lit(s[0])] + Lits(s[1..], ts)
  }

  /** A prefix without `:` tokenises to its own characters, whatever follows. */
  lemma {:induction false} TokenizeLiteralPrefix(base: string, tail: string)
    requires ':' !in base
    ensures Tokenize(base + tail) == Lits(base, Tokenize(tail))
    decreases |base|
  {
    if base == [] {
      assert base + tail == tail;
    } else {
      var s := base + tail;
      assert s[0] == base[0] && base[0] in base;
      assert s[1..] == base[1..] + tail;
      TokenizeLiteral(s);
      assert ':' !in base[1..] by {
        assert forall c :: c in base[1..] ==> c in base;
      }
      TokenizeLiteralPrefix(base[1..], tail);
    }
  }

  /** Literal tokens consume their own text and bind nothing. */
  lemma {:induction false} LiteralPrefixMatch(base: string, ts: seq<Token>, path: string)
    ensures HoleNames(Lits(base, ts)) == HoleNames(ts)
    ensures CoreMatch(Lits(base, ts), base + path) == CoreMatch(ts, path)
    decreases |base|
  {
    if base == [] {
      assert base + path == path;
    } else {
      LiteralPrefixMatch(base[1..], ts, path);
      TextCons(base, path);
      LiteralStep(base[0], Lits(base[1..], ts), base[1..] + path);
    }
  }

  lemma TextCons(base: string, path: string)
    requires base != []
    ensures base + path == [base[0]] + (base[1..] + path)
  {
    assert base == [base[0]] + base[1..];
  }

  /** One literal token consumes its own character and binds nothing. */
  lemma LiteralStep(c: char, ts: seq<Token>, path: string)
    ensures HoleNames([Lit(c)] + ts) == HoleNames(ts)
    ensures CoreMatch([Lit(c)] + ts, [c] + path) == CoreMatch(ts, path)
  {
    var t, s := [Lit(c)] + ts, [c] + path;
    assert t[0] == Lit(c) && t[1..] == ts;
    assert s[0] == c && s[1..] == path;
  }

  /** The item pattern `base/:id` of a `:`-free base has the one placeholder
      `id`, and admits `base/seg` for every segment, capturing the segment. */
  lemma IdPattern(base: string, seg: string)
    requires ':' !in base
    requires IsSegmentText(seg)
    ensures HoleNames(Tokenize(base + "/:id")) == ["id"]
    ensures MatchPath(Tokenize(base + "/:id"), base + "/" + seg) == Some([seg])
  {
    var item := [Lit('/'), Hole("id")];
    ItemTokens();
    TokenizeLiteralPrefix(base, "/:id");
    assert base + "/" + seg == base + ("/" + seg);
    LiteralPrefixMatch(base, item, "/" + seg);
    ItemMatch(seg);
    TrailingSlash(Tokenize(base + "/:id"), base + "/" + seg);
  }

  lemma ItemTokens()
    ensures Tokenize("/:id") == [Lit('/'), Hole("id")]
  {
    assert "/:id"[1..] == ":id";
    assert RunLength("id") == 2;
    assert ":id"[1..1 + 2] == "id" && ":id"[1 + 2..] == [];
  }

  lemma ItemMatch(seg: string)
    requires IsSegmentText(seg)
    ensures CoreMatch([Lit('/'), Hole("id")], "/" + seg) == Some([seg])
  {
    var hole := [Hole("id")];
    RunLengthUnique(seg, |seg|);
    assert [Lit('/'), Hole("id")][1..] == hole && hole[1..] == [];
    assert ("/" + seg)[1..] == seg && seg[|seg|..] == [];
    var none: seq<string> := [];
    assert CoreMatch(hole[1..], seg[|seg|..]) == Some(none);
    assert seg[..|seg|] == seg;
    assert [seg[..|seg|]] + none == [seg];
    assert CoreMatch(hole, seg) == Some([seg]);
  }
}
