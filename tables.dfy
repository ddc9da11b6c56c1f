/** A database table as the stock repository sees it: rows kept in ascending primary-key
    order, so that a full scan returns them in the order `order by <primary key>` asks for. */
module Tables {
  import opened Wrappers
  import opened JavaLang

  /** `less` is a strict total order. */
  ghost predicate StrictTotalOrder<K(!new)>(less: (K, K) -> bool)
  {
    && (forall a :: !less(a, a))
    && (forall a, b, c :: less(a, b) && less(b, c) ==> less(a, c))
    && (forall a, b :: a != b ==> less(a, b) || less(b, a))
  }

  type Table<K, V> = seq<(K, V)>

  predicate Sorted<K, V>(less: (K, K) -> bool, t: Table<K, V>)
  {
    forall i, j :: 0 <= i < j < |t| ==> less(t[i].0, t[j].0)
  }

  /** The map the rows stand for, as putting them into a map one after the other builds it. */
  function AsMap<K, V>(t: Table<K, V>): map<K, V>
    decreases |t|
  {
    if t == [] then map[] else AsMap(t[..|t| - 1])[t[|t| - 1].0 := t[|t| - 1].1]
  }

  function Keys<K, V>(t: Table<K, V>): set<K>
  {
    set i | 0 <= i < |t| :: t[i].0
  }

  /** Insert-or-replace, keeping the order: `update ... where key = ?`, and `insert` when no
      row was updated. */
  function Upsert<K(==,!new), V>(less: (K, K) -> bool, t: Table<K, V>, k: K, v: V): (r: Table<K, V>)
    requires StrictTotalOrder(less) && Sorted(less, t)
    ensures Sorted(less, r)
    ensures Keys(r) == Keys(t) + {k}
    decreases |t|
  {
    if t == [] then
      KeysPrepend((k, v), t);
      assert [(k, v)] + t == [(k, v)];
      [(k, v)]
    else if less(k, t[0].0) then
      KeysPrepend((k, v), t);
      [(k, v)] + t
    else if k == t[0].0 then
      KeysPrepend(t[0], t[1..]);
      KeysPrepend((k, v), t[1..]);
      [(k, v)] + t[1..]
    else
      var rest := Upsert(less, t[1..], k, v);
      assert t == [t[0]] + t[1..];
      KeysPrepend(t[0], t[1..]);
      KeysPrepend(t[0], rest);
      assert forall i :: 0 <= i < |rest| ==> less(t[0].0, rest[i].0) by {
        forall i | 0 <= i < |rest| ensures less(t[0].0, rest[i].0) {
          var j :| 0 <= j < |rest| && rest[j].0 == rest[i].0;
          assert rest[i].0 in Keys(t[1..]) + {k};
          if rest[i].0 != k {
            var m :| 0 <= m < |t[1..]| && t[1..][m].0 == rest[i].0;
            assert t[m + 1].0 == rest[i].0;
          }
        }
      }
      [t[0]] + rest
  }

  /** The value stored under `k`, if any. */
  function Lookup<K(==), V>(t: Table<K, V>, k: K): (r: Option<V>)
    ensures r.Some? <==> k in Keys(t)
    decreases |t|
  {
    if t == [] then None
    else if t[0].0 == k then Some(t[0].1)
    else
      assert Keys(t) == {t[0].0} + Keys(t[1..]);
      Lookup(t[1..], k)
  }

  // ---------------------------------------------------------------------------------------
  // What the operations mean on the map

  lemma KeysPrepend<K, V>(x: (K, V), t: Table<K, V>)
    ensures Keys([x] + t) == {x.0} + Keys(t)
  {
    var r := [x] + t;
    forall k | k in Keys(r) ensures k in {x.0} + Keys(t) {
      var i :| 0 <= i < |r| && r[i].0 == k;
      if i > 0 { assert t[i - 1] == r[i]; }
    }
    forall k | k in Keys(t) ensures k in Keys(r) {
      var i :| 0 <= i < |t| && t[i].0 == k;
      assert r[i + 1] == t[i];
    }
    assert r[0] == x;
  }

  lemma {:induction false} AsMapKeys<K, V>(t: Table<K, V>)
    ensures AsMap(t).Keys == Keys(t)
    decreases |t|
  {
    if t != [] {
      var init := t[..|t| - 1];
      AsMapKeys(init);
      assert Keys(t) == Keys(init) + {t[|t| - 1].0} by {
        forall k | k in Keys(t) ensures k in Keys(init) + {t[|t| - 1].0} {
          var i :| 0 <= i < |t| && t[i].0 == k;
          if i < |t| - 1 { assert init[i].0 == k; }
        }
        forall k | k in Keys(init) ensures k in Keys(t) {
          var i :| 0 <= i < |init| && init[i].0 == k;
          assert t[i].0 == k;
        }
      }
    }
  }

  /** Putting a row in front of rows with other keys adds one entry to the map. */
  lemma {:induction false} AsMapPrepend<K, V>(x: (K, V), t: Table<K, V>)
    requires x.0 !in Keys(t)
    ensures AsMap([x] + t) == AsMap(t)[x.0 := x.1]
    decreases |t|
  {
    if t != [] {
      var init := t[..|t| - 1];
      assert ([x] + t)[..|[x] + t| - 1] == [x] + init;
      assert x.0 !in Keys(init) by {
        forall i | 0 <= i < |init| ensures init[i].0 != x.0 { assert init[i] == t[i]; }
      }
      AsMapPrepend(x, init);
      assert t[|t| - 1].0 != x.0;
    }
  }

  /** In sorted rows each key occurs once, so the map holds every row exactly. */
  lemma {:induction false} AsMapSorted<K(!new), V>(less: (K, K) -> bool, t: Table<K, V>)
    requires StrictTotalOrder(less) && Sorted(less, t)
    ensures forall i :: 0 <= i < |t| ==> t[i].0 in AsMap(t) && AsMap(t)[t[i].0] == t[i].1
    decreases |t|
  {
    AsMapKeys(t);
    if t != [] {
      var rest := t[1..];
      AsMapSorted(less, rest);
      assert t[0].0 !in Keys(rest) by {
        forall i | 0 <= i < |rest| ensures rest[i].0 != t[0].0 {
          assert rest[i] == t[i + 1];
        }
      }
      assert t == [t[0]] + rest;
      AsMapPrepend(t[0], rest);
      forall i | 1 <= i < |t| ensures t[i].0 in AsMap(t) && AsMap(t)[t[i].0] == t[i].1 {
        assert rest[i - 1] == t[i];
      }
    }
  }

  /** `Upsert` is a map update. */
  lemma {:induction false} UpsertAsMap<K(!new), V>(less: (K, K) -> bool, t: Table<K, V>, k: K, v: V)
    requires StrictTotalOrder(less) && Sorted(less, t)
    ensures AsMap(Upsert(less, t, k, v)) == AsMap(t)[k := v]
    decreases |t|
  {
    if t == [] {
      assert AsMap([(k, v)]) == AsMap(t)[k := v] by {
        assert [(k, v)][..0] == [];
      }
    } else if less(k, t[0].0) {
      UpsertBefore(less, t, k, v);
    } else if k == t[0].0 {
      UpsertReplace(less, t, k, v);
    } else {
      UpsertAsMap(less, t[1..], k, v);
      UpsertAfter(less, t, Upsert(less, t[1..], k, v), k, v);
    }
  }

  lemma UpsertBefore<K(!new), V>(less: (K, K) -> bool, t: Table<K, V>, k: K, v: V)
    requires StrictTotalOrder(less) && Sorted(less, t) && t != [] && less(k, t[0].0)
    ensures AsMap([(k, v)] + t) == AsMap(t)[k := v]
  {
    assert k !in Keys(t) by {
      forall i | 0 <= i < |t| ensures t[i].0 != k {
        if i > 0 { assert less(t[0].0, t[i].0); }
      }
    }
    AsMapPrepend((k, v), t);
  }

  lemma UpsertReplace<K(!new), V>(less: (K, K) -> bool, t: Table<K, V>, k: K, v: V)
    requires StrictTotalOrder(less) && Sorted(less, t) && t != [] && k == t[0].0
    ensures AsMap([(k, v)] + t[1..]) == AsMap(t)[k := v]
  {
    var rest := t[1..];
    assert t == [t[0]] + rest;
    assert k !in Keys(rest) by {
      forall i | 0 <= i < |rest| ensures rest[i].0 != k { assert rest[i] == t[i + 1]; }
    }
    AsMapPrepend((k, v), rest);
    AsMapPrepend(t[0], rest);
  }

  lemma UpsertAfter<K(!new), V>(less: (K, K) -> bool, t: Table<K, V>, r: Table<K, V>, k: K, v: V)
    requires StrictTotalOrder(less) && Sorted(less, t) && t != [] && k != t[0].0
    requires Keys(r) == Keys(t[1..]) + {k}
    requires AsMap(r) == AsMap(t[1..])[k := v]
    ensures AsMap([t[0]] + r) == AsMap(t)[k := v]
  {
    HeadNotInTail(less, t);
    AsMapPrepend(t[0], t[1..]);
    AsMapPrepend(t[0], r);
  }

  /** The first key of sorted rows occurs nowhere else. */
  lemma HeadNotInTail<K(!new), V>(less: (K, K) -> bool, t: Table<K, V>)
    requires StrictTotalOrder(less) && Sorted(less, t) && t != []
    ensures t == [t[0]] + t[1..]
    ensures t[0].0 !in Keys(t[1..])
  {
    var rest := t[1..];
    forall i | 0 <= i < |rest| ensures rest[i].0 != t[0].0 {
      assert rest[i] == t[i + 1];
    }
  }

  /** `Lookup` reads the map. */
  lemma {:induction false} LookupAsMap<K(!new), V>(less: (K, K) -> bool, t: Table<K, V>, k: K)
    requires StrictTotalOrder(less) && Sorted(less, t)
    ensures Lookup(t, k) == if k in AsMap(t) then Some(AsMap(t)[k]) else None
    decreases |t|
  {
    if t == [] {
    } else if t[0].0 == k {
      HeadNotInTail(less, t);
      AsMapPrepend(t[0], t[1..]);
    } else {
      LookupAsMap(less, t[1..], k);
      HeadNotInTail(less, t);
      AsMapPrepend(t[0], t[1..]);
    }
  }

  // ---------------------------------------------------------------------------------------
  // The orders the tables are kept in

  /** `String.compareTo(a, b) < 0`. */
  predicate StringLess(a: string, b: string)
  {
    StringCompare(a, b) < 0
  }

  /** The order of `order by first, second`. */
  predicate PairLess(a: (string, string), b: (string, string))
  {
    StringLess(a.0, b.0) || (a.0 == b.0 && StringLess(a.1, b.1))
  }

  lemma StringLessIsOrder()
    ensures StrictTotalOrder(StringLess)
  {
    forall a ensures !StringLess(a, a) {
      StringCompareMeaning(a, a);
    }
    forall a, b, c | StringLess(a, b) && StringLess(b, c) ensures StringLess(a, c) {
      StringCompareTransitive(a, b, c);
    }
    forall a, b | a != b ensures StringLess(a, b) || StringLess(b, a) {
      StringCompareMeaning(a, b);
      StringCompareAntisymmetric(a, b);
    }
  }

  lemma PairLessIsOrder()
    ensures StrictTotalOrder(PairLess)
  {
    StringLessIsOrder();
  }
}
