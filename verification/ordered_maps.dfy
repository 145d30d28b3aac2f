/**
 * Ruby's Hash as the container uses it: a finite map that remembers the order in
 * which keys were first inserted. Assigning an existing key replaces its value in
 * place; `Merge` is `Hash#merge`, where the argument's values win.
 */
module OrderedMaps {
  import opened Base

  datatype OMap<K(==), V> = OMap(entries: seq<(K, V)>)

  function Empty<K(==), V>(): OMap<K, V> {
    OMap([])
  }

  /** The keys in insertion order. */
  function Keys<K(==), V>(m: OMap<K, V>): (ks: seq<K>)
    ensures |ks| == |m.entries|
    ensures forall i :: 0 <= i < |ks| ==> ks[i] == m.entries[i].0
    decreases |m.entries|
  {
    if |m.entries| == 0 then [] else [m.entries[0].0] + Keys(OMap(m.entries[1..]))
  }

  /** The values in insertion order. */
  function Values<K(==), V>(m: OMap<K, V>): (vs: seq<V>)
    ensures |vs| == |m.entries|
    ensures forall i :: 0 <= i < |vs| ==> vs[i] == m.entries[i].1
    decreases |m.entries|
  {
    if |m.entries| == 0 then [] else [m.entries[0].1] + Values(OMap(m.entries[1..]))
  }

  /** A well-formed hash holds every key once. */
  predicate Valid<K(==,!new), V>(m: OMap<K, V>) {
    NoDuplicates(Keys(m))
  }

  predicate HasKey<K(==), V>(m: OMap<K, V>, k: K) {
    k in Keys(m)
  }

  /** The value of the first entry for `k`. */
  function Find<K(==), V>(es: seq<(K, V)>, k: K): Option<V>
    decreases |es|
  {
    if |es| == 0 then None else if es[0].0 == k then Some(es[0].1) else Find(es[1..], k)
  }

  /** `Find` succeeds exactly on the keys present, with a value stored under the key. */
  lemma {:induction false} FindFound<K(!new), V>(es: seq<(K, V)>, k: K)
    ensures Find(es, k).Some? <==> k in Keys(OMap(es))
    ensures Find(es, k).Some? ==> (k, Find(es, k).value) in es
    decreases |es|
  {
    if |es| > 0 {
      assert Keys(OMap(es)) == [es[0].0] + Keys(OMap(es[1..]));
      if es[0].0 == k {
        assert es[0] == (k, es[0].1);
      } else {
        FindFound(es[1..], k);
        assert Find(es, k) == Find(es[1..], k);
        if Find(es, k).Some? {
          var j :| 0 <= j < |es[1..]| && es[1..][j] == (k, Find(es, k).value);
          assert es[j + 1] == es[1..][j];
        }
      }
    }
  }

  /** `m[k]`, with `None` for a missing key. */
  function Get<K(==,!new), V>(m: OMap<K, V>, k: K): Option<V> {
    Find(m.entries, k)
  }

  /** `m[k]` is found exactly for the keys present. */
  lemma GetSpec<K(!new), V>(m: OMap<K, V>, k: K)
    ensures Get(m, k).Some? <==> k in Keys(m)
  {
    FindFound(m.entries, k);
  }

  /** The first entry with key `k` is the one `m[k]` finds. */
  lemma {:induction false} GetFirst<K(!new), V>(m: OMap<K, V>, i: nat, k: K)
    requires i < |m.entries| && m.entries[i].0 == k
    requires forall j :: 0 <= j < i ==> m.entries[j].0 != k
    ensures Get(m, k) == Some(m.entries[i].1)
    decreases i
  {
    if i > 0 {
      var t := OMap(m.entries[1..]);
      assert t.entries[i - 1] == m.entries[i];
      GetFirst(t, i - 1, k);
      assert Get(m, k) == Get(t, k);
    }
  }

  /** A key no entry holds is missing. */
  lemma GetNone<K(!new), V>(m: OMap<K, V>, k: K)
    requires forall j :: 0 <= j < |m.entries| ==> m.entries[j].0 != k
    ensures Get(m, k) == None
  {
    assert k !in Keys(m);
    GetSpec(m, k);
  }

  /** In a well-formed hash, the key of any entry looks up that entry's value. */
  lemma {:induction false} GetAt<K(!new), V>(m: OMap<K, V>, i: nat)
    requires Valid(m) && i < |m.entries|
    ensures Get(m, m.entries[i].0) == Some(m.entries[i].1)
    decreases |m.entries|
  {
    if i > 0 {
      var t := OMap(m.entries[1..]);
      Distinct(Keys(m), 0, i);
      NoDuplicatesTail(Keys(m));
      assert Keys(t) == Keys(m)[1..];
      assert t.entries[i - 1] == m.entries[i];
      GetAt(t, i - 1);
    }
  }

  /** The entries after `es[k] = v`: the first entry for `k` takes the value, or a new one goes last. */
  function Assign<K(==), V>(es: seq<(K, V)>, k: K, v: V): seq<(K, V)>
    decreases |es|
  {
    if |es| == 0 then [(k, v)]
    else if es[0].0 == k then [(k, v)] + es[1..]
    else [es[0]] + Assign(es[1..], k, v)
  }

  /** Looking up in assigned entries. */
  lemma {:induction false} AssignFind<K(!new), V>(es: seq<(K, V)>, k: K, v: V, k': K)
    ensures Find(Assign(es, k, v), k') == if k' == k then Some(v) else Find(es, k')
    decreases |es|
  {
    if |es| > 0 && es[0].0 != k {
      assert Assign(es, k, v)[1..] == Assign(es[1..], k, v);
      AssignFind(es[1..], k, v, k');
    }
  }

  /** The keys of assigned entries. */
  lemma {:induction false} AssignKeys<K(!new), V>(es: seq<(K, V)>, k: K, v: V)
    ensures Keys(OMap(Assign(es, k, v))) == if k in Keys(OMap(es)) then Keys(OMap(es)) else Keys(OMap(es)) + [k]
    decreases |es|
  {
    var ks := Keys(OMap(es));
    var rs := Keys(OMap(Assign(es, k, v)));
    if |es| == 0 {
      assert rs == [k];
    } else {
      var tks := Keys(OMap(es[1..]));
      assert ks == [es[0].0] + tks;
      if es[0].0 == k {
        assert rs == [k] + tks;
      } else {
        AssignKeys(es[1..], k, v);
        assert rs == [es[0].0] + Keys(OMap(Assign(es[1..], k, v)));
        if k !in tks {
          assert [es[0].0] + (tks + [k]) == ks + [k];
        }
      }
    }
  }

  /** Every assigned entry is the new one or an old one. */
  lemma {:induction false} AssignEntries<K(!new), V>(es: seq<(K, V)>, k: K, v: V, e: (K, V))
    requires e in Assign(es, k, v)
    ensures e == (k, v) || e in es
    decreases |es|
  {
    if |es| > 0 && es[0].0 != k && e != es[0] {
      assert e in Assign(es[1..], k, v);
      AssignEntries(es[1..], k, v, e);
    } else if |es| > 0 && es[0].0 == k && e != (k, v) {
      assert e in es[1..];
    }
  }

  /** `m[k] = v`: a new key goes last, an existing key keeps its position. */
  function Put<K(==,!new), V>(m: OMap<K, V>, k: K, v: V): (r: OMap<K, V>)
    ensures Get(r, k) == Some(v)
    ensures forall k' {:trigger Get(r, k')} :: k' != k ==> Get(r, k') == Get(m, k')
    ensures Keys(r) == if k in Keys(m) then Keys(m) else Keys(m) + [k]
  {
    var r := OMap(Assign(m.entries, k, v));
    AssignFind(m.entries, k, v, k);
    assert forall k' :: Get(r, k') == if k' == k then Some(v) else Get(m, k') by {
      forall k' { AssignFind(m.entries, k, v, k'); }
    }
    AssignKeys(m.entries, k, v);
    r
  }

  /** Assigning into an empty hash gives a one-entry hash. */
  lemma PutEmpty<K(!new), V>(k: K, v: V)
    ensures Put(Empty(), k, v) == OMap([(k, v)])
  {
  }

  /** Assigning into a well-formed hash keeps it well-formed. */
  lemma PutValid<K(!new), V>(m: OMap<K, V>, k: K, v: V)
    requires Valid(m)
    ensures Valid(Put(m, k, v))
  {
    if k !in Keys(m) {
      NoDuplicatesAppend(Keys(m), k);
    }
  }

  /** Every entry after `m[k] = v` holds `v` or one of the values already in `m`. */
  lemma PutEntries<K(!new), V>(m: OMap<K, V>, k: K, v: V, i: nat)
    requires i < |Put(m, k, v).entries|
    ensures Put(m, k, v).entries[i].1 == v || Put(m, k, v).entries[i].1 in Values(m)
  {
    var e := Put(m, k, v).entries[i];
    AssignEntries(m.entries, k, v, e);
    if e != (k, v) {
      var j :| 0 <= j < |m.entries| && m.entries[j] == e;
      assert Values(m)[j] == e.1;
    }
  }

  /** A hash built from two assignments to distinct keys. */
  lemma PutPut<K(!new), V>(a: K, x: V, b: K, y: V)
    requires a != b
    ensures var m := Put(Put(Empty(), a, x), b, y);
      Keys(m) == [a, b] && Get(m, a) == Some(x) && Get(m, b) == Some(y)
  {
    var m1 := Put(Empty(), a, x);
    assert Keys(m1) == [a];
  }

  /** The keys of a hash whose first entry is `e`. */
  lemma KeysCons<K(!new), V>(e: (K, V), rest: seq<(K, V)>)
    ensures Keys(OMap([e] + rest)) == [e.0] + Keys(OMap(rest))
  {
    assert Keys(OMap([e] + rest)) == [e.0] + Keys(OMap(rest));
  }

  /** Looking a key up in a hash whose first entry is `e`. */
  lemma GetCons<K(!new), V>(e: (K, V), rest: seq<(K, V)>, k: K)
    ensures Keys(OMap([e] + rest)) == [e.0] + Keys(OMap(rest))
    ensures Get(OMap([e] + rest), k) == if e.0 == k then Some(e.1) else Get(OMap(rest), k)
  {
    KeysCons(e, rest);
    assert ([e] + rest)[1..] == rest;
  }

  /** `m.delete(k)`: the entry for `k` removed, the others in order. */
  function Delete<K(==,!new), V>(m: OMap<K, V>, k: K): OMap<K, V>
    decreases |m.entries|
  {
    if |m.entries| == 0 then m
    else
      var e := m.entries[0];
      var rest := Delete(OMap(m.entries[1..]), k);
      if e.0 == k then rest else OMap([e] + rest.entries)
  }

  /** After `m.delete(k)` the keys are `m.keys - [k]`, in order. */
  lemma {:induction false} DeleteKeys<K(!new), V>(m: OMap<K, V>, k: K)
    ensures Keys(Delete(m, k)) == Without(Keys(m), k)
    decreases |m.entries|
  {
    if |m.entries| > 0 {
      var e := m.entries[0];
      var rest := Delete(OMap(m.entries[1..]), k);
      DeleteKeys(OMap(m.entries[1..]), k);
      KeysCons(e, m.entries[1..]);
      assert m.entries == [e] + m.entries[1..];
      if e.0 != k {
        KeysCons(e, rest.entries);
      }
    }
  }

  /** Deleting `k` leaves every other key's value alone and `k` absent. */
  lemma {:induction false} DeleteGet<K(!new), V>(m: OMap<K, V>, k: K, k': K)
    ensures Get(Delete(m, k), k') == if k' == k then None else Get(m, k')
    decreases |m.entries|
  {
    if |m.entries| > 0 {
      var e := m.entries[0];
      assert m.entries == [e] + m.entries[1..];
      GetCons(e, m.entries[1..], k');
      DeleteGet(OMap(m.entries[1..]), k, k');
      var rest := Delete(OMap(m.entries[1..]), k);
      if e.0 != k {
        GetCons(e, rest.entries, k');
      }
    }
  }

  /** `a.merge(b)`: every key of `b` assigned into `a` in `b`'s order. */
  function Merge<K(==,!new), V>(a: OMap<K, V>, b: OMap<K, V>): (r: OMap<K, V>)
    ensures forall k :: k in Keys(r) <==> k in Keys(a) || k in Keys(b)
    ensures IsPrefix(Keys(a), Keys(r))
    decreases |b.entries|
  {
    if |b.entries| == 0 then a
    else
      var e := b.entries[0];
      var tail := OMap(b.entries[1..]);
      var a' := Put(a, e.0, e.1);
      var r := Merge(a', tail);
      MergeStep(a, a', r, e.0);
      KeysCons(e, tail.entries);
      assert b.entries == [e] + tail.entries;
      r
  }

  /** One step of `Merge`: assigning a key keeps the earlier keys as a prefix and adds the key. */
  lemma MergeStep<K(!new), V>(a: OMap<K, V>, a': OMap<K, V>, r: OMap<K, V>, k: K)
    requires Keys(a') == if k in Keys(a) then Keys(a) else Keys(a) + [k]
    requires IsPrefix(Keys(a'), Keys(r))
    ensures IsPrefix(Keys(a), Keys(r))
    ensures k in Keys(r)
  {
    if k in Keys(a) {
      assert Keys(a') == Keys(a);
    } else {
      assert Keys(a') == Keys(a) + [k];
      assert IsPrefix(Keys(a), Keys(a'));
      PrefixTrans(Keys(a), Keys(a'), Keys(r));
      assert Keys(r)[|Keys(a)|] == k;
    }
  }

  /** Merging into a well-formed hash keeps it well-formed. */
  lemma {:induction false} MergeValid<K(!new), V>(a: OMap<K, V>, b: OMap<K, V>)
    requires Valid(a)
    ensures Valid(Merge(a, b))
    decreases |b.entries|
  {
    if |b.entries| > 0 {
      var e := b.entries[0];
      PutValid(a, e.0, e.1);
      MergeValid(Put(a, e.0, e.1), OMap(b.entries[1..]));
    }
  }

  /** In `a.merge(b)` the value of a key is `b`'s when `b` has it, `a`'s otherwise. */
  lemma {:induction false} MergeGet<K(!new), V>(a: OMap<K, V>, b: OMap<K, V>, k: K)
    requires Valid(b)
    ensures Get(Merge(a, b), k) == if HasKey(b, k) then Get(b, k) else Get(a, k)
    decreases |b.entries|
  {
    if |b.entries| > 0 {
      var e := b.entries[0];
      var tail := OMap(b.entries[1..]);
      assert b.entries == [e] + tail.entries;
      GetCons(e, tail.entries, k);
      assert Keys(tail) == Keys(b)[1..];
      NoDuplicatesTail(Keys(b));
      MergeGet(Put(a, e.0, e.1), tail, k);
    }
  }
}
