/** Python dicts with string keys, as insertion-ordered association lists. */
module Dicts {
  import opened Results

  /** A Python dict with string keys: an association list kept in insertion order. */
  type Dict<V> = seq<(string, V)>

  function KeysOf<V>(d: Dict<V>): (ks: seq<string>)
    ensures |ks| == |d|
    ensures forall i :: 0 <= i < |d| ==> ks[i] == d[i].0
  {
    if d == [] then [] else [d[0].0] + KeysOf(d[1..])
  }

  predicate HasKey<V>(d: Dict<V>, k: string) {
    exists i :: 0 <= i < |d| && d[i].0 == k
  }

  /** `d.get(k)`: the value under the first occurrence of `k`. */
  function Lookup<V>(d: Dict<V>, k: string): (r: Option<V>)
    ensures r.None? <==> !HasKey(d, k)
    ensures r.Some? ==> exists i :: 0 <= i < |d| && d[i] == (k, r.value)
  {
    if d == [] then None
    else if d[0].0 == k then Some(d[0].1)
    else Lookup(d[1..], k)
  }

  /** `d[k] = v`: replaces the value in place when `k` is present, appends otherwise. */
  function Put<V>(d: Dict<V>, k: string, v: V): (r: Dict<V>)
    ensures r != [] && |d| <= |r| <= |d| + 1
  {
    if d == [] then [(k, v)]
    else if d[0].0 == k then [(k, v)] + d[1..]
    else [d[0]] + Put(d[1..], k, v)
  }

  /** `d.update(e)`: every entry of `e`, in order, is put into `d`. */
  function Update<V>(d: Dict<V>, e: Dict<V>): (r: Dict<V>)
    decreases |e|
  {
    if e == [] then d else Update(Put(d, e[0].0, e[0].1), e[1..])
  }

  /** No key occurs twice, as in every Python dict. */
  predicate UniqueKeys<V>(d: Dict<V>) {
    forall i, j :: 0 <= i < j < |d| ==> d[i].0 != d[j].0
  }

  /** No entry after position `i` has the key of entry `i`. */
  predicate LastIndex<V>(e: Dict<V>, i: int)
    requires 0 <= i < |e|
  {
    forall j :: i < j < |e| ==> e[j].0 != e[i].0
  }

  /** The value the last entry for `k` in `e` carries, if any. */
  function LastFor<V>(e: Dict<V>, k: string): (r: Option<V>)
    ensures r.None? <==> !HasKey(e, k)
    ensures r.Some? ==> exists i :: 0 <= i < |e| && e[i] == (k, r.value) && LastIndex(e, i)
  {
    if e == [] then None
    else if e[|e| - 1].0 == k then Some(e[|e| - 1].1)
    else LastFor(e[..|e| - 1], k)
  }

  lemma {:induction false} LookupPut<V>(d: Dict<V>, k: string, v: V, k': string)
    ensures Lookup(Put(d, k, v), k') == if k' == k then Some(v) else Lookup(d, k')
  {
    if d != [] && d[0].0 != k {
      LookupPut(d[1..], k, v, k');
    }
  }

  lemma HasKeyCons<V>(d: Dict<V>, k: string)
    requires d != []
    ensures HasKey(d, k) <==> d[0].0 == k || HasKey(d[1..], k)
  {
    if HasKey(d[1..], k) {
      var i :| 0 <= i < |d[1..]| && d[1..][i].0 == k;
      assert d[i + 1].0 == k;
    }
    if HasKey(d, k) && d[0].0 != k {
      var i :| 0 <= i < |d| && d[i].0 == k;
      assert d[1..][i - 1].0 == k;
    }
  }

  lemma {:induction false} PutKeys<V>(d: Dict<V>, k: string, v: V)
    ensures KeysOf(Put(d, k, v)) == if HasKey(d, k) then KeysOf(d) else KeysOf(d) + [k]
  {
    if d == [] {
    } else if d[0].0 == k {
      assert HasKey(d, k) by { assert d[0].0 == k; }
    } else {
      PutKeys(d[1..], k, v);
      HasKeyCons(d, k);
      assert ([d[0]] + Put(d[1..], k, v))[1..] == Put(d[1..], k, v);
    }
  }

  lemma {:induction false} PutHasKey<V>(d: Dict<V>, k: string, v: V, k': string)
    ensures HasKey(Put(d, k, v), k') <==> k' == k || HasKey(d, k')
  {
    LookupPut(d, k, v, k');
  }

  lemma PutHasKeys<V>(d: Dict<V>, k: string, v: V)
    ensures forall k' :: HasKey(Put(d, k, v), k') <==> k' == k || HasKey(d, k')
  {
    forall k' ensures HasKey(Put(d, k, v), k') <==> k' == k || HasKey(d, k') {
      PutHasKey(d, k, v, k');
    }
  }

  lemma {:induction false} PutUnique<V>(d: Dict<V>, k: string, v: V)
    requires UniqueKeys(d)
    ensures UniqueKeys(Put(d, k, v))
  {
    if d != [] && d[0].0 != k {
      PutUnique(d[1..], k, v);
      var r := Put(d, k, v);
      forall i, j | 0 <= i < j < |r| ensures r[i].0 != r[j].0 {
        if i == 0 {
          PutHasKey(d[1..], k, v, d[0].0);
          assert r[j] == Put(d[1..], k, v)[j - 1];
          assert !HasKey(d[1..], d[0].0) by {
            forall m | 0 <= m < |d[1..]| ensures d[1..][m].0 != d[0].0 {
              assert d[1..][m] == d[m + 1];
            }
          }
        }
      }
    } else if d != [] {
      var r := Put(d, k, v);
      forall i, j | 0 <= i < j < |r| ensures r[i].0 != r[j].0 {
        assert r[j] == d[j];
        assert r[i].0 == d[i].0;
      }
    }
  }

  /** After `d.update(e)`, a key takes the last value `e` gives it, and keeps its
      old value when `e` does not mention it. */
  lemma {:induction false} LookupUpdate<V>(d: Dict<V>, e: Dict<V>, k: string)
    ensures Lookup(Update(d, e), k) == if HasKey(e, k) then LastFor(e, k) else Lookup(d, k)
    decreases |e|
  {
    if e != [] {
      LookupUpdate(Put(d, e[0].0, e[0].1), e[1..], k);
      LookupPut(d, e[0].0, e[0].1, k);
      LastForCons(e, k);
    }
  }

  lemma LastForCons<V>(e: Dict<V>, k: string)
    requires e != []
    ensures LastFor(e, k) == if HasKey(e[1..], k) then LastFor(e[1..], k)
                             else if e[0].0 == k then Some(e[0].1) else None
  {
    assert e == [e[0]] + e[1..];
    LastForAppend([e[0]], e[1..], k);
    assert [e[0]][..0] == [];
  }

  lemma {:induction false} HasKeyAppend<V>(a: Dict<V>, b: Dict<V>, k: string)
    ensures HasKey(a + b, k) <==> HasKey(a, k) || HasKey(b, k)
  {
    if HasKey(a + b, k) {
      var i :| 0 <= i < |a + b| && (a + b)[i].0 == k;
      if i < |a| { assert a[i].0 == k; } else { assert b[i - |a|].0 == k; }
    }
    if HasKey(a, k) {
      var i :| 0 <= i < |a| && a[i].0 == k;
      assert (a + b)[i].0 == k;
    }
    if HasKey(b, k) {
      var i :| 0 <= i < |b| && b[i].0 == k;
      assert (a + b)[|a| + i].0 == k;
    }
  }

  /** The entry that decides `LastFor` is the latest one for the key. */
  lemma LastForLatest<V>(e: Dict<V>, i: int)
    requires 0 <= i < |e| && LastIndex(e, i)
    ensures LastFor(e, e[i].0) == Some(e[i].1)
  {
    var k := e[i].0;
    assert HasKey(e, k);
    var j :| 0 <= j < |e| && e[j] == (k, LastFor(e, k).value) && LastIndex(e, j);
    assert LastIndex(e, j) && LastIndex(e, i);
    assert e[j].0 == k && e[i].0 == k;
    assert j == i;
  }

  lemma LastForAppend<V>(a: Dict<V>, b: Dict<V>, k: string)
    ensures LastFor(a + b, k) == if HasKey(b, k) then LastFor(b, k) else LastFor(a, k)
  {
    HasKeyAppend(a, b, k);
    var e := a + b;
    if HasKey(b, k) {
      var j :| 0 <= j < |b| && b[j] == (k, LastFor(b, k).value) && LastIndex(b, j);
      assert e[|a| + j] == b[j];
      assert LastIndex(b, j);
      forall m | |a| + j < m < |e| ensures e[m].0 != k {
        assert e[m] == b[m - |a|];
        assert b[m - |a|].0 != b[j].0;
      }
      LastForLatest(e, |a| + j);
    } else if HasKey(a, k) {
      var j :| 0 <= j < |a| && a[j] == (k, LastFor(a, k).value) && LastIndex(a, j);
      assert e[j] == a[j];
      assert LastIndex(a, j);
      forall m | j < m < |e| ensures e[m].0 != k {
        if m < |a| {
          assert e[m] == a[m];
          assert a[m].0 != a[j].0;
        } else {
          assert e[m] == b[m - |a|];
          assert !HasKey(b, k);
          assert b[m - |a|].0 != k;
        }
      }
      LastForLatest(e, j);
    }
  }

  /** With unique keys the first and the last entry for a key are the same. */
  lemma {:induction false} LookupUnique<V>(d: Dict<V>, i: int)
    requires UniqueKeys(d) && 0 <= i < |d|
    ensures Lookup(d, d[i].0) == Some(d[i].1)
  {
    if i > 0 {
      assert d[0].0 != d[i].0;
      assert d[1..][i - 1] == d[i];
      LookupUnique(d[1..], i - 1);
    }
  }

  lemma UniqueLastFor<V>(d: Dict<V>, k: string)
    requires UniqueKeys(d)
    ensures LastFor(d, k) == Lookup(d, k)
  {
    if HasKey(d, k) {
      var i :| 0 <= i < |d| && d[i] == (k, LastFor(d, k).value) && LastIndex(d, i);
      LookupUnique(d, i);
    }
  }

  lemma {:induction false} UpdateUnique<V>(d: Dict<V>, e: Dict<V>)
    requires UniqueKeys(d)
    ensures UniqueKeys(Update(d, e))
    decreases |e|
  {
    if e != [] {
      PutUnique(d, e[0].0, e[0].1);
      UpdateUnique(Put(d, e[0].0, e[0].1), e[1..]);
    }
  }

  lemma {:induction false} UpdateHasKey<V>(d: Dict<V>, e: Dict<V>, k: string)
    ensures HasKey(Update(d, e), k) <==> HasKey(d, k) || HasKey(e, k)
    decreases |e|
  {
    if e != [] {
      PutHasKey(d, e[0].0, e[0].1, k);
      UpdateHasKey(Put(d, e[0].0, e[0].1), e[1..], k);
      HasKeyCons(e, k);
    }
  }

  lemma {:induction false} UpdateSnoc<V>(d: Dict<V>, e: Dict<V>, k: string, v: V)
    ensures Update(d, e + [(k, v)]) == Put(Update(d, e), k, v)
    decreases |e|
  {
    if e == [] {
      assert [] + [(k, v)] == [(k, v)];
    } else {
      assert (e + [(k, v)])[1..] == e[1..] + [(k, v)];
      UpdateSnoc(Put(d, e[0].0, e[0].1), e[1..], k, v);
    }
  }

  /** A second assignment to the same key wins. */
  lemma {:induction false} PutPut<V>(d: Dict<V>, k: string, a: V, b: V)
    ensures Put(Put(d, k, a), k, b) == Put(d, k, b)
  {
    if d != [] && d[0].0 != k {
      PutPut(d[1..], k, a, b);
    }
  }

  /** Every entry of `Put(d, k, v)` is an entry of `d` or the new one. */
  lemma {:induction false} PutEntries<V>(d: Dict<V>, k: string, v: V)
    ensures forall i :: 0 <= i < |Put(d, k, v)| ==> Put(d, k, v)[i] in d || Put(d, k, v)[i] == (k, v)
  {
    if d != [] {
      var r := Put(d, k, v);
      if d[0].0 == k {
        forall i | 0 <= i < |r| ensures r[i] in d || r[i] == (k, v) {
          if i > 0 { assert r[i] == d[i]; }
        }
      } else {
        PutEntries(d[1..], k, v);
        forall i | 0 <= i < |r| ensures r[i] in d || r[i] == (k, v) {
          if i > 0 {
            assert r[i] == Put(d[1..], k, v)[i - 1];
            assert forall e :: e in d[1..] ==> e in d;
          }
        }
      }
    }
  }

  /** Looking up in `d` extended by one entry at the end. */
  lemma {:induction false} LookupSnoc<V>(d: Dict<V>, k: string, v: V, k': string)
    ensures Lookup(d + [(k, v)], k') == if HasKey(d, k') then Lookup(d, k') else if k' == k then Some(v) else None
  {
    if d == [] {
      assert [] + [(k, v)] == [(k, v)];
    } else {
      assert (d + [(k, v)])[1..] == d[1..] + [(k, v)];
      LookupSnoc(d[1..], k, v, k');
      HasKeyCons(d, k');
    }
  }

  /** The keys of a non-empty dict: those of all but its last entry, and the last one's. */
  lemma HasKeySnoc<V>(d: Dict<V>)
    requires d != []
    ensures forall k :: HasKey(d, k) <==> HasKey(d[..|d| - 1], k) || d[|d| - 1].0 == k
  {
    var n := |d| - 1;
    assert d == d[..n] + [d[n]];
    forall k ensures HasKey(d, k) <==> HasKey(d[..n], k) || d[n].0 == k {
      HasKeyAppend(d[..n], [d[n]], k);
      if HasKey([d[n]], k) {
        var i :| 0 <= i < 1 && [d[n]][i].0 == k;
      }
      if d[n].0 == k {
        assert [d[n]][0].0 == k;
      }
    }
  }

  /** All but the last entry of a dict with unique keys have unique keys, and
      none of them has the last entry's key. */
  lemma UniqueSnoc<V>(d: Dict<V>)
    requires UniqueKeys(d) && d != []
    ensures UniqueKeys(d[..|d| - 1]) && !HasKey(d[..|d| - 1], d[|d| - 1].0)
  {
  }

  lemma KeysOfSnoc<V>(d: Dict<V>)
    requires d != []
    ensures KeysOf(d) == KeysOf(d[..|d| - 1]) + [d[|d| - 1].0]
  {
  }
}
