/**
 * The JavaScript string operations the servers use, on `seq<char>`:
 * `String.prototype.replace` with a string or a flagless regular expression
 * (only the first match is replaced), a global one-character replace,
 * `endsWith`, `Array.prototype.join`, and a `split` that is used to state
 * round trips.
 */
module Strings {
  import opened Wrappers

  /** `pat` occurs in `s` starting at index `i`. */
  predicate OccursAt(s: string, pat: string, i: nat) {
    i + |pat| <= |s| && s[i..i + |pat|] == pat
  }

  /** Alternative `k` of `alts` matches at `i`, no alternative matches further
      left, and no earlier alternative matches at `i`: the match found by a
      JavaScript regular expression `alts[0]|alts[1]|...` without the `g` flag. */
  ghost predicate IsFirstOccurrence(s: string, alts: seq<string>, i: nat, k: nat) {
    && k < |alts|
    && OccursAt(s, alts[k], i)
    && (forall j, k' :: 0 <= j < i && 0 <= k' < |alts| ==> !OccursAt(s, alts[k'], j))
    && (forall k' :: 0 <= k' < k ==> !OccursAt(s, alts[k'], i))
  }

  /** No alternative occurs anywhere in `s`. */
  ghost predicate Absent(s: string, alts: seq<string>) {
    forall j: nat, k :: 0 <= k < |alts| ==> !OccursAt(s, alts[k], j)
  }

  /** The first of `alts[k..]` that occurs at position `i`. */
  function FirstAltAt(s: string, alts: seq<string>, i: nat, k: nat): (r: Option<nat>)
    requires k <= |alts|
    ensures r.Some? ==> k <= r.value < |alts| && OccursAt(s, alts[r.value], i)
    ensures r.Some? ==> forall k' :: k <= k' < r.value ==> !OccursAt(s, alts[k'], i)
    ensures r.None? ==> forall k' :: k <= k' < |alts| ==> !OccursAt(s, alts[k'], i)
    decreases |alts| - k
  {
    if k == |alts| then None
    else if OccursAt(s, alts[k], i) then Some(k)
    else FirstAltAt(s, alts, i, k + 1)
  }

  /** Scans positions `from`, `from + 1`, ... for the first match. */
  function FindFrom(s: string, alts: seq<string>, from: nat): (r: Option<(nat, nat)>)
    requires from <= |s|
    requires forall j, k :: 0 <= j < from && 0 <= k < |alts| ==> !OccursAt(s, alts[k], j)
    ensures r.Some? ==> IsFirstOccurrence(s, alts, r.value.0, r.value.1)
    ensures r.None? ==> Absent(s, alts)
    decreases |s| - from
  {
    match FirstAltAt(s, alts, from, 0)
    case Some(k) => Some((from, k))
    case None => if from == |s| then None else FindFrom(s, alts, from + 1)
  }

  /** Position and alternative of the first match of `alts` in `s`, if any. */
  function FindFirst(s: string, alts: seq<string>): (r: Option<(nat, nat)>)
    ensures r.Some? ==> IsFirstOccurrence(s, alts, r.value.0, r.value.1)
    ensures r.None? ==> Absent(s, alts)
  {
    FindFrom(s, alts, 0)
  }

  lemma FirstOccurrenceUnique(s: string, alts: seq<string>, i: nat, k: nat, i': nat, k': nat)
    requires IsFirstOccurrence(s, alts, i, k) && IsFirstOccurrence(s, alts, i', k')
    ensures i == i' && k == k'
  {
  }

  /** `s.replace(/alts[0]|alts[1]|.../, "")`: the first match is removed and
      nothing else changes; without a match `s` comes back unchanged. */
  function RemoveFirstOf(s: string, alts: seq<string>): (r: string)
    ensures forall i: nat, k: nat :: IsFirstOccurrence(s, alts, i, k) ==> r == s[..i] + s[i + |alts[k]|..]
    ensures Absent(s, alts) ==> r == s
  {
    match FindFirst(s, alts)
    case Some((i, k)) => s[..i] + s[i + |alts[k]|..]
    case None => s
  }

  /** `s.replace(pat, "")` with a string pattern. */
  function RemoveFirst(s: string, pat: string): string {
    RemoveFirstOf(s, [pat])
  }

  /** A pattern found at the very start is the first occurrence. */
  lemma RemoveFirstAtStart(s: string, pat: string)
    requires OccursAt(s, pat, 0)
    ensures RemoveFirst(s, pat) == s[|pat|..]
  {
    assert IsFirstOccurrence(s, [pat], 0, 0);
  }

  /** Whenever `pat` occurs at all, exactly `|pat|` characters are removed. */
  lemma RemoveFirstLength(s: string, pat: string, j: nat)
    requires OccursAt(s, pat, j)
    ensures |RemoveFirst(s, pat)| == |s| - |pat|
  {
    assert !Absent(s, [pat]) by { assert OccursAt(s, [pat][0], j); }
    var r := FindFirst(s, [pat]);
    assert r.Some?;
  }

  /** A pattern whose first character does not occur in `s[..n]` has no
      occurrence starting before `n`. */
  lemma NoOccurrenceBefore(s: string, pat: string, n: nat)
    requires pat != [] && n <= |s|
    requires pat[0] !in s[..n]
    ensures forall j :: 0 <= j < n ==> !OccursAt(s, pat, j)
  {
    forall j | 0 <= j < n
      ensures !OccursAt(s, pat, j)
    {
      assert s[..n][j] == s[j];
      if j + |pat| <= |s| {
        assert s[j..j + |pat|][0] == s[j];
      }
    }
  }

  /** `s.replace(/x/g, y)` for single characters `x` and `y`. */
  function ReplaceEvery(s: string, x: char, y: char): (r: string)
    ensures |r| == |s|
    ensures forall i :: 0 <= i < |s| ==> r[i] == (if s[i] == x then y else s[i])
  {
    if s == [] then [] else [if s[0] == x then y else s[0]] + ReplaceEvery(s[1..], x, y)
  }

  /** Replacing twice changes nothing more than replacing once. */
  lemma ReplaceEveryIdempotent(s: string, x: char, y: char)
    ensures ReplaceEvery(ReplaceEvery(s, x, y), x, y) == ReplaceEvery(s, x, y)
  {
    var once := ReplaceEvery(s, x, y);
    var twice := ReplaceEvery(once, x, y);
    assert |twice| == |once|;
    forall i | 0 <= i < |once| ensures twice[i] == once[i] {
    }
  }

  predicate StartsWith(s: string, prefix: string) {
    |prefix| <= |s| && s[..|prefix|] == prefix
  }

  predicate EndsWith(s: string, suffix: string) {
    |suffix| <= |s| && s[|s| - |suffix|..] == suffix
  }

  /** `xs.join(sep)`. */
  function Join(xs: seq<string>, sep: string): string {
    if xs == [] then ""
    else if |xs| == 1 then xs[0]
    else xs[0] + sep + Join(xs[1..], sep)
  }

  /** `s.split(sep)` for a non-empty separator. */
  function Split(s: string, sep: string): (parts: seq<string>)
    requires sep != []
    ensures parts != []
    decreases |s|
  {
    match FindFirst(s, [sep])
    case Some((i, k)) =>
      assert k == 0 && OccursAt(s, [sep][k], i);
      [s[..i]] + Split(s[i + |sep|..], sep)
    case None => [s]
  }

  /** Splitting a joined list gives the list back, provided no element
      contains the separator's first character. */
  lemma {:induction false} SplitJoin(xs: seq<string>, sep: string)
    requires sep != [] && xs != []
    requires forall i :: 0 <= i < |xs| ==> sep[0] !in xs[i]
    ensures Split(Join(xs, sep), sep) == xs
  {
    if |xs| == 1 {
      SplitSingle(xs[0], sep);
    } else {
      forall i | 0 <= i < |xs[1..]| ensures sep[0] !in xs[1..][i] {
        assert xs[1..][i] == xs[i + 1];
      }
      SplitJoin(xs[1..], sep);
      SplitStep(xs[0], sep, Join(xs[1..], sep));
      assert xs == [xs[0]] + xs[1..];
    }
  }

  /** A text without the separator's first character splits into itself. */
  lemma SplitSingle(x: string, sep: string)
    requires sep != [] && sep[0] !in x
    ensures Split(x, sep) == [x]
  {
    assert x[..|x|] == x;
    NoOccurrenceBefore(x, sep, |x|);
    assert Absent(x, [sep]) by {
      forall j: nat, k | 0 <= k < 1 ensures !OccursAt(x, [sep][k], j) {
        assert [sep][k] == sep;
      }
    }
  }

  /** The first separator after a separator-free part ends that part. */
  lemma SplitStep(x: string, sep: string, rest: string)
    requires sep != [] && sep[0] !in x
    ensures Split(x + sep + rest, sep) == [x] + Split(rest, sep)
  {
    var s := x + sep + rest;
    assert s[..|x|] == x;
    assert s[|x| + |sep|..] == rest;
    assert IsFirstOccurrence(s, [sep], |x|, 0) by {
      assert s[|x|..|x| + |sep|] == sep;
      assert s[..|x|] == x;
      NoOccurrenceBefore(s, sep, |x|);
      forall j, k' | 0 <= j < |x| && 0 <= k' < 1 ensures !OccursAt(s, [sep][k'], j) {
        assert [sep][k'] == sep;
      }
    }
    var r := FindFirst(s, [sep]);
    assert OccursAt(s, [sep][0], |x|);
    assert r.Some?;
    FirstOccurrenceUnique(s, [sep], r.value.0, r.value.1, |x|, 0);
  }
}
