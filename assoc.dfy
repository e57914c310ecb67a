/**
 * Insertion-ordered dictionaries: the shape of a JavaScript object whose keys
 * are not array indices. `for...in`, `Object.keys` and `Object.values` visit
 * such keys in the order they were first assigned, and assigning to a key that
 * is already present replaces its value without moving it.
 */
module Assoc {
  import opened Wrappers

  type Dict<V> = seq<(string, V)>

  function Keys<V>(d: Dict<V>): (ks: seq<string>)
    ensures |ks| == |d|
    ensures forall i :: 0 <= i < |d| ==> ks[i] == d[i].0
  {
    seq(|d|, i requires 0 <= i < |d| => d[i].0)
  }

  function Values<V>(d: Dict<V>): (vs: seq<V>)
    ensures |vs| == |d|
    ensures forall i :: 0 <= i < |d| ==> vs[i] == d[i].1
  {
    seq(|d|, i requires 0 <= i < |d| => d[i].1)
  }

  /** Index of the first occurrence of `k` in `ks`. */
  function IndexOf(ks: seq<string>, k: string): (r: Option<nat>)
    ensures r.Some? ==> r.value < |ks| && ks[r.value] == k
    ensures r.Some? ==> forall j :: 0 <= j < r.value ==> ks[j] != k
    ensures r.None? <==> k !in ks
  {
    if ks == [] then None
    else if ks[0] == k then Some(0)
    else match IndexOf(ks[1..], k)
      case None => None
      case Some(i) => Some(i + 1)
  }

  lemma IndexOfAppend(ks: seq<string>, k: string, k': string)
    requires k' != k
    ensures IndexOf(ks + [k], k') == IndexOf(ks, k')
  {
    if ks != [] {
      assert (ks + [k])[1..] == ks[1..] + [k];
      IndexOfAppend(ks[1..], k, k');
    }
  }

  predicate DistinctKeys<V>(d: Dict<V>) {
    forall i, j :: 0 <= i < j < |d| ==> d[i].0 != d[j].0
  }

  /** `d[k]`, or `None` for a key that was never assigned. */
  function Lookup<V>(d: Dict<V>, k: string): (r: Option<V>)
    ensures r.None? <==> k !in Keys(d)
  {
    match IndexOf(Keys(d), k)
    case Some(i) => Some(d[i].1)
    case None => None
  }

  lemma LookupAt<V>(d: Dict<V>, i: nat)
    requires DistinctKeys(d) && i < |d|
    ensures Lookup(d, d[i].0) == Some(d[i].1)
  {
    var r := IndexOf(Keys(d), d[i].0);
    assert Keys(d)[i] == d[i].0;
    assert r.Some?;
  }

  /** The assignment `d[k] = v`. */
  function Put<V>(d: Dict<V>, k: string, v: V): (r: Dict<V>)
    ensures Lookup(r, k) == Some(v)
    ensures forall k' :: k' != k ==> Lookup(r, k') == Lookup(d, k')
  {
    match IndexOf(Keys(d), k)
    case Some(i) =>
      var r := d[i := (k, v)];
      assert Keys(r) == Keys(d);
      r
    case None =>
      var r := d + [(k, v)];
      assert Keys(r) == Keys(d) + [k];
      forall k' | k' != k ensures Lookup(r, k') == Lookup(d, k') {
        IndexOfAppend(Keys(d), k, k');
      }
      r
  }

  /** Where the assignment `d[k] = v` leaves the keys: in place when `k` is
      already present, appended otherwise. */
  lemma PutKeys<V>(d: Dict<V>, k: string, v: V)
    ensures Keys(Put(d, k, v)) == if k in Keys(d) then Keys(d) else Keys(d) + [k]
    ensures DistinctKeys(d) ==> DistinctKeys(Put(d, k, v))
  {
    var r := Put(d, k, v);
    match IndexOf(Keys(d), k)
    case Some(i) =>
      assert r == d[i := (k, v)];
      assert Keys(r) == Keys(d);
    case None =>
      assert r == d + [(k, v)];
      assert Keys(r) == Keys(d) + [k];
  }

  /** The keys of `ks` with every repetition dropped, each where it first
      occurs. */
  function FirstOccurrences(ks: seq<string>): seq<string>
    decreases |ks|
  {
    if ks == [] then []
    else
      var n := |ks| - 1;
      FirstOccurrences(ks[..n]) + (if ks[n] in ks[..n] then [] else [ks[n]])
  }

  /** `FirstOccurrences(ks)` holds each key of `ks` once, in the order of
      their first occurrences in `ks`. */
  lemma FirstOccurrencesOrder(ks: seq<string>)
    ensures forall x :: x in FirstOccurrences(ks) <==> x in ks
    ensures forall i, j :: 0 <= i < j < |FirstOccurrences(ks)| ==> FirstOccurrences(ks)[i] != FirstOccurrences(ks)[j]
    ensures forall i, j :: 0 <= i < j < |FirstOccurrences(ks)| ==>
              IndexOf(ks, FirstOccurrences(ks)[i]).value < IndexOf(ks, FirstOccurrences(ks)[j]).value
  {
    FirstOccurrencesMembers(ks);
    FirstOccurrencesDistinct(ks);
    FirstOccurrencesIndexOrder(ks);
  }

  lemma {:induction false} FirstOccurrencesMembers(ks: seq<string>)
    ensures forall x :: x in FirstOccurrences(ks) <==> x in ks
    decreases |ks|
  {
    if ks != [] {
      var n := |ks| - 1;
      FirstOccurrencesMembers(ks[..n]);
      assert ks == ks[..n] + [ks[n]];
    }
  }

  lemma {:induction false} FirstOccurrencesDistinct(ks: seq<string>)
    ensures forall i, j :: 0 <= i < j < |FirstOccurrences(ks)| ==> FirstOccurrences(ks)[i] != FirstOccurrences(ks)[j]
    decreases |ks|
  {
    if ks != [] {
      var n := |ks| - 1;
      var p, k := ks[..n], ks[n];
      FirstOccurrencesDistinct(p);
      FirstOccurrencesMembers(p);
      var f, r := FirstOccurrences(p), FirstOccurrences(ks);
      if k !in p {
        assert r == f + [k];
      } else {
        assert r == f;
      }
    }
  }

  lemma {:induction false} FirstOccurrencesIndexOrder(ks: seq<string>)
    ensures forall i, j :: 0 <= i < j < |FirstOccurrences(ks)| ==>
              FirstOccurrences(ks)[i] in ks && FirstOccurrences(ks)[j] in ks &&
              IndexOf(ks, FirstOccurrences(ks)[i]).value < IndexOf(ks, FirstOccurrences(ks)[j]).value
    decreases |ks|
  {
    if ks != [] {
      var n := |ks| - 1;
      var p, k := ks[..n], ks[n];
      var f := FirstOccurrences(p);
      FirstOccurrencesIndexOrder(p);
      FirstOccurrencesMembers(p);
      assert ks == p + [k];
      if k !in p {
        assert FirstOccurrences(ks) == f + [k];
        IndexOrderAppendNew(p, k, f, ks, FirstOccurrences(ks));
      } else {
        assert FirstOccurrences(ks) == f;
        IndexOrderAppendOld(p, k, f, ks, FirstOccurrences(ks));
      }
    } else {
      assert FirstOccurrences(ks) == [];
    }
  }

  /** Appending a new key to `p` and to its keys in order keeps the order. */
  lemma IndexOrderAppendNew(p: seq<string>, k: string, f: seq<string>, ks: seq<string>, r: seq<string>)
    requires ks == p + [k] && r == f + [k] && k !in p
    requires forall x :: x in f ==> x in p
    requires forall i, j :: 0 <= i < j < |f| ==> IndexOf(p, f[i]).value < IndexOf(p, f[j]).value
    ensures forall i, j :: 0 <= i < j < |r| ==>
              r[i] in ks && r[j] in ks && IndexOf(ks, r[i]).value < IndexOf(ks, r[j]).value
  {
    assert IndexOf(ks, k) == Some(|p|);
    forall i, j | 0 <= i < j < |r|
      ensures r[i] in ks && r[j] in ks && IndexOf(ks, r[i]).value < IndexOf(ks, r[j]).value
    {
      assert r[i] == f[i];
      IndexOfAppendIn(p, k, f[i]);
      if j < |f| {
        assert r[j] == f[j];
        IndexOfAppendIn(p, k, f[j]);
      }
    }
  }

  /** Appending a key already present to `p` keeps the order of its keys. */
  lemma IndexOrderAppendOld(p: seq<string>, k: string, f: seq<string>, ks: seq<string>, r: seq<string>)
    requires ks == p + [k] && r == f
    requires forall x :: x in f ==> x in p
    requires forall i, j :: 0 <= i < j < |f| ==> IndexOf(p, f[i]).value < IndexOf(p, f[j]).value
    ensures forall i, j :: 0 <= i < j < |r| ==>
              r[i] in ks && r[j] in ks && IndexOf(ks, r[i]).value < IndexOf(ks, r[j]).value
  {
    forall i, j | 0 <= i < j < |r|
      ensures r[i] in ks && r[j] in ks && IndexOf(ks, r[i]).value < IndexOf(ks, r[j]).value
    {
      IndexOfAppendIn(p, k, f[i]);
      IndexOfAppendIn(p, k, f[j]);
    }
  }

  /** A key found in `ks` is found at the same place after one more key. */
  lemma IndexOfAppendIn(ks: seq<string>, k: string, x: string)
    requires x in ks
    ensures IndexOf(ks + [k], x) == IndexOf(ks, x)
  {
    if ks[0] != x {
      assert (ks + [k])[1..] == ks[1..] + [k];
      IndexOfAppendIn(ks[1..], k, x);
    }
  }

  /** The assignments `d[writes[0].0] = writes[0].1; d[writes[1].0] = writes[1].1; ...` in order. */
  function ApplyAll<V>(d: Dict<V>, writes: seq<(string, V)>): Dict<V>
    decreases |writes|
  {
    if writes == [] then d
    else
      var n := |writes| - 1;
      Put(ApplyAll(d, writes[..n]), writes[n].0, writes[n].1)
  }

  /** One more write extends a prefix of the writes by one assignment. */
  lemma ApplyAllPrefix<V>(d: Dict<V>, writes: seq<(string, V)>, i: nat)
    requires i < |writes|
    ensures ApplyAll(d, writes[..i + 1]) == Put(ApplyAll(d, writes[..i]), writes[i].0, writes[i].1)
  {
    assert writes[..i + 1][..i] == writes[..i];
  }

  /** A key that none of the writes assigns keeps the value it had. */
  lemma {:induction false} ApplyAllUnassigned<V>(d: Dict<V>, writes: seq<(string, V)>, k: string)
    requires forall i :: 0 <= i < |writes| ==> writes[i].0 != k
    ensures Lookup(ApplyAll(d, writes), k) == Lookup(d, k)
    decreases |writes|
  {
    if writes != [] {
      var n := |writes| - 1;
      assert writes[n].0 != k;
      ApplyAllUnassigned(d, writes[..n], k);
    }
  }

  /** The last write to a key decides its value. */
  lemma {:induction false} ApplyAllLast<V>(d: Dict<V>, writes: seq<(string, V)>, i: nat)
    requires i < |writes|
    requires forall j :: i < j < |writes| ==> writes[j].0 != writes[i].0
    ensures Lookup(ApplyAll(d, writes), writes[i].0) == Some(writes[i].1)
    decreases |writes|
  {
    var n := |writes| - 1;
    if i < n {
      var pre := writes[..n];
      PrefixLastWrite(writes, i);
      ApplyAllLast(d, pre, i);
      PutOther(ApplyAll(d, pre), writes[n].0, writes[n].1, writes[i].0);
    }
  }

  /** The prefix without the final write still has `writes[i]` as its last
      write to that key. */
  lemma PrefixLastWrite<V>(writes: seq<(string, V)>, i: nat)
    requires i < |writes| - 1
    requires forall j :: i < j < |writes| ==> writes[j].0 != writes[i].0
    ensures var pre := writes[..|writes| - 1];
            pre[i] == writes[i] && forall j :: i < j < |pre| ==> pre[j].0 != pre[i].0
  {
  }

  /** A write to another key leaves `k`'s lookup alone. */
  lemma PutOther<V>(d: Dict<V>, k': string, v: V, k: string)
    requires k' != k
    ensures Lookup(Put(d, k', v), k) == Lookup(d, k)
  {
  }

  /** Keys already present keep their positions. */
  lemma {:induction false} ApplyAllKeepsOrder<V>(d: Dict<V>, writes: seq<(string, V)>)
    ensures Keys(d) <= Keys(ApplyAll(d, writes))
    ensures DistinctKeys(d) ==> DistinctKeys(ApplyAll(d, writes))
    decreases |writes|
  {
    if writes != [] {
      var n := |writes| - 1;
      ApplyAllKeepsOrder(d, writes[..n]);
      PutKeys(ApplyAll(d, writes[..n]), writes[n].0, writes[n].1);
    }
  }

  /** Starting from an empty object, the keys are the written keys in the
      order of their first assignment, each once. */
  lemma {:induction false} ApplyAllKeyOrder<V>(writes: seq<(string, V)>)
    ensures Keys(ApplyAll([], writes)) == FirstOccurrences(Keys(writes))
    decreases |writes|
  {
    if writes != [] {
      var n := |writes| - 1;
      var pre := writes[..n];
      var ks := Keys(writes);
      ApplyAllKeyOrder(pre);
      assert ks[..n] == Keys(pre);
      FirstOccurrencesOrder(Keys(pre));
      PutKeys(ApplyAll([], pre), writes[n].0, writes[n].1);
    }
  }

  /** Every key present afterwards was present before or was written. */
  lemma {:induction false} ApplyAllKeyOrigin<V>(d: Dict<V>, writes: seq<(string, V)>, k: string)
    requires k in Keys(ApplyAll(d, writes))
    ensures k in Keys(d) || exists i :: 0 <= i < |writes| && writes[i].0 == k
    decreases |writes|
  {
    if writes != [] {
      var n := |writes| - 1;
      var pre := writes[..n];
      if k != writes[n].0 {
        assert k in Keys(ApplyAll(d, pre));
        ApplyAllKeyOrigin(d, pre, k);
        if k !in Keys(d) {
          var i :| 0 <= i < |pre| && pre[i].0 == k;
          assert writes[i].0 == k;
        }
      }
    }
  }

  /** Running two batches of writes is running their concatenation. */
  lemma {:induction false} ApplyAllAppend<V>(d: Dict<V>, a: seq<(string, V)>, b: seq<(string, V)>)
    ensures ApplyAll(d, a + b) == ApplyAll(ApplyAll(d, a), b)
    decreases |b|
  {
    if b == [] {
      assert a + b == a;
    } else {
      var n := |b| - 1;
      assert (a + b)[..|a + b| - 1] == a + b[..n];
      assert (a + b)[|a + b| - 1] == b[n];
      ApplyAllAppend(d, a, b[..n]);
    }
  }

  /** Every written key is present afterwards. */
  lemma {:induction false} ApplyAllHasKey<V>(d: Dict<V>, writes: seq<(string, V)>, i: nat)
    requires i < |writes|
    ensures writes[i].0 in Keys(ApplyAll(d, writes))
    decreases |writes| - i
  {
    if exists j :: i < j < |writes| && writes[j].0 == writes[i].0 {
      var j :| i < j < |writes| && writes[j].0 == writes[i].0;
      ApplyAllHasKey(d, writes, j);
    } else {
      ApplyAllLast(d, writes, i);
    }
  }

  /** Every value present afterwards was there before or was written under
      that key. */
  lemma {:induction false} ApplyAllValueOrigin<V>(d: Dict<V>, writes: seq<(string, V)>, k: string)
    requires Lookup(ApplyAll(d, writes), k).Some?
    ensures Lookup(ApplyAll(d, writes), k) == Lookup(d, k)
            || exists i :: 0 <= i < |writes| && writes[i] == (k, Lookup(ApplyAll(d, writes), k).value)
    decreases |writes|
  {
    if writes != [] {
      var n := |writes| - 1;
      var pre := writes[..n];
      if k != writes[n].0 {
        PutOther(ApplyAll(d, pre), writes[n].0, writes[n].1, k);
        ApplyAllValueOrigin(d, pre, k);
        if Lookup(ApplyAll(d, pre), k) != Lookup(d, k) {
          var i :| 0 <= i < |pre| && pre[i] == (k, Lookup(ApplyAll(d, pre), k).value);
          assert writes[i] == pre[i];
        }
      } else {
        assert writes[n] == (k, Lookup(ApplyAll(d, writes), k).value);
      }
    }
  }
}
