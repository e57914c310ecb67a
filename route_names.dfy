/**
 * The file-path-to-route-name rule that every server variant repeats: turn
 * every backslash into `/`, drop the first occurrence of the base directory,
 * drop the first file extension, and then either apply the `index` rule (a
 * route ending in `index` loses its first `index`, and an empty result
 * becomes `/`) or prefix `/`. The variants differ only in the base directory,
 * the extensions and whether the `index` rule applies.
 */
module RouteNames {
  import opened Strings

  /** Backslash separators turned into `/`. */
  function Normalize(file: string): (r: string)
    ensures |r| == |file| && '\\' !in r
    ensures forall i :: 0 <= i < |file| && file[i] != '\\' ==> r[i] == file[i]
    ensures forall i :: 0 <= i < |file| && file[i] == '\\' ==> r[i] == '/'
  {
    ReplaceEvery(file, '\\', '/')
  }

  /** The route text before the last step: separators normalised, first base
      directory occurrence and first extension occurrence removed. */
  function Stripped(file: string, base: string, exts: seq<string>): string {
    RemoveFirstOf(RemoveFirst(Normalize(file), base), exts)
  }

  /** `route.endsWith("index") ? (route.replace("index", "") || "/") : "/" + route`. */
  function IndexRule(route: string): (r: string)
    ensures r != []
  {
    if EndsWith(route, "index") then
      var rest := RemoveFirst(route, "index");
      if rest == "" then "/" else rest
    else "/" + route
  }

  /** `determineRoute(file)` for a given base directory and extension list. */
  function DetermineRoute(file: string, base: string, exts: seq<string>): (r: string)
    ensures r != []
  {
    IndexRule(Stripped(file, base, exts))
  }

  /** A route reduced to exactly `index` is the root. */
  lemma IndexIsRoot()
    ensures IndexRule("index") == "/"
  {
    RemoveFirstAtStart("index", "index");
  }

  /** A longer route that ends in `index` loses the first `index` it contains
      (which need not be the final one) and gets no leading `/`. */
  lemma IndexSuffixRemoved(route: string, i: nat)
    requires EndsWith(route, "index") && |route| > 5
    requires IsFirstOccurrence(route, ["index"], i, 0)
    ensures IndexRule(route) == route[..i] + route[i + 5..]
    ensures |IndexRule(route)| == |route| - 5
  {
    RemoveFirstLength(route, "index", i);
  }

  /** `sub/index` names the folder `sub/`: when the final `index` is the first
      one, the route is the folder with its trailing slash. */
  lemma FolderIndex(dir: string)
    requires dir != []
    requires forall j :: 0 <= j < |dir| ==> !OccursAt(dir + "index", "index", j)
    ensures IndexRule(dir + "index") == dir
  {
    var route := dir + "index";
    assert EndsWith(route, "index") by { assert route[|route| - 5..] == "index"; }
    assert OccursAt(route, "index", |dir|) by { assert route[|dir|..|dir| + 5] == "index"; }
    assert IsFirstOccurrence(route, ["index"], |dir|, 0);
    assert route[..|dir|] == dir && route[|dir| + 5..] == [];
  }

  /** A folder's index page: `sub/index` names `sub/`. */
  lemma SubfolderExample()
    ensures IndexRule("sub/index") == "sub/"
  {
    var sub := "sub/index";
    assert sub == "sub/" + "index";
    assert sub[..4] == "sub/";
    NoOccurrenceBefore(sub, "index", 4);
    FolderIndex("sub/");
  }

  /** The first `index` is removed, not the final one. */
  lemma FirstIndexExample()
    ensures IndexRule("index/index") == "/index"
  {
    var route := "index/index";
    assert route[6..] == "index";
    assert EndsWith(route, "index");
    assert route[..5] == "index";
    RemoveFirstAtStart(route, "index");
    assert route[5..] == "/index";
  }

  /** Any route not ending in `index` gets a leading `/`. */
  lemma PlainRouteGetsSlash(route: string)
    requires !EndsWith(route, "index")
    ensures IndexRule(route) == "/" + route
  {
  }

  /** Normalising the separators first changes nothing: every backslash is
      replaced before the base directory is looked for. */
  lemma SeparatorInsensitive(file: string, base: string, exts: seq<string>)
    ensures DetermineRoute(Normalize(file), base, exts) == DetermineRoute(file, base, exts)
  {
    ReplaceEveryIdempotent(file, '\\', '/');
  }

  /** A file `base + name + ext + tail` with no `.` in `name` and no
      backslash anywhere names the route derived from `name + tail`: the
      base is removed from the front and the extension right after the name,
      and a second base or extension later on stays. */
  lemma PlainFile(base: string, name: string, exts: seq<string>, k: nat, tail: string)
    requires k < |exts|
    requires forall k' :: 0 <= k' < |exts| ==> exts[k'] != [] && exts[k'][0] == '.'
    requires forall k' :: 0 <= k' < k ==> !StartsWith(exts[k] + tail, exts[k'])
    requires '.' !in name
    requires '\\' !in base + name + exts[k] + tail
    ensures Stripped(base + name + exts[k] + tail, base, exts) == name + tail
    ensures DetermineRoute(base + name + exts[k] + tail, base, exts) == IndexRule(name + tail)
  {
    var rest := name + exts[k] + tail;
    var file := base + name + exts[k] + tail;
    assert file == base + rest;
    assert Normalize(file) == file;
    assert OccursAt(file, base, 0) by { assert file[..|base|] == base; }
    RemoveFirstAtStart(file, base);
    assert file[|base|..] == rest;
    ExtensionAfterName(name, exts, k, tail);
  }

  /** The first extension occurrence in `name + ext + tail` is the one right
      after a dot-free `name`. */
  lemma ExtensionAfterName(name: string, exts: seq<string>, k: nat, tail: string)
    requires k < |exts|
    requires forall k' :: 0 <= k' < |exts| ==> exts[k'] != [] && exts[k'][0] == '.'
    requires forall k' :: 0 <= k' < k ==> !StartsWith(exts[k] + tail, exts[k'])
    requires '.' !in name
    ensures RemoveFirstOf(name + exts[k] + tail, exts) == name + tail
  {
    var ext := exts[k];
    var s := name + ext + tail;
    assert OccursAt(s, ext, |name|) by { assert s[|name|..|name| + |ext|] == ext; }
    forall j, k' | 0 <= j < |name| && 0 <= k' < |exts| ensures !OccursAt(s, exts[k'], j) {
      assert s[j] == name[j] && name[j] != '.';
      if j + |exts[k']| <= |s| {
        assert s[j..j + |exts[k']|][0] == s[j];
      }
    }
    forall k' | 0 <= k' < k ensures !OccursAt(s, exts[k'], |name|) {
      var n := |exts[k']|;
      assert !StartsWith(ext + tail, exts[k']);
      if |name| + n <= |s| {
        assert s[|name|..|name| + n] == (ext + tail)[..n];
      }
    }
    assert IsFirstOccurrence(s, exts, |name|, k);
    assert s[..|name|] + s[|name| + |ext|..] == name + tail;
  }
}
