/** Ordered name-to-value collections with put-in-place semantics.

    This is how a PHP array with string keys, or a Laravel `Collection`, behaves
    for the claim code: `put` of an existing name replaces the value where it
    stands, `put` of a new name appends it, and iteration follows insertion
    order. A collection is a sequence of (name, value) pairs; reading a name
    takes its first entry (`Lookup`), and `Latest` reads the last entry of a
    list of pairs that is about to be applied in order. */
module Entries {
  import opened Wrappers

  type Entries<V> = seq<(string, V)>

  /** The names of the entries, in order. */
  function Names<V>(e: Entries<V>): seq<string>
  {
    if e == [] then [] else [e[0].0] + Names(e[1..])
  }

  /** The set of names present. */
  function Keys<V>(e: Entries<V>): set<string>
  {
    set n | n in Names(e)
  }

  /** No name occurs twice: every PHP array and collection has this shape. */
  predicate Unique<V>(e: Entries<V>)
  {
    e == [] || (e[0].0 !in Keys(e[1..]) && Unique(e[1..]))
  }

  lemma {:induction false} NamesConcat<V>(a: Entries<V>, b: Entries<V>)
    ensures Names(a + b) == Names(a) + Names(b)
    ensures Keys(a + b) == Keys(a) + Keys(b)
  {
    if a == [] {
      assert a + b == b;
    } else {
      assert (a + b)[1..] == a[1..] + b;
      NamesConcat(a[1..], b);
    }
  }

  /** The value stored under `k`: the first entry with that name. */
  function Lookup<V>(e: Entries<V>, k: string): (r: Option<V>)
    ensures r.Some? <==> k in Keys(e)
  {
    if e == [] then None
    else if e[0].0 == k then Some(e[0].1)
    else Lookup(e[1..], k)
  }

  /** The value the last entry named `k` carries: the one that survives when the
      pairs are put one after the other. */
  function Latest<V>(e: Entries<V>, k: string): (r: Option<V>)
    ensures r.Some? <==> k in Keys(e)
  {
    if e == [] then None
    else
      var n := |e| - 1;
      assert e == e[..n] + [e[n]];
      NamesConcat(e[..n], [e[n]]);
      if e[n].0 == k then Some(e[n].1) else Latest(e[..n], k)
  }

  /** Collection::put: replaces the value of an existing name in place, or
      appends a new entry. */
  function Put<V>(e: Entries<V>, k: string, v: V): (r: Entries<V>)
    ensures Lookup(r, k) == Some(v)
    ensures forall j :: j != k ==> Lookup(r, j) == Lookup(e, j)
    ensures Keys(r) == Keys(e) + {k}
    ensures k in Keys(e) ==> Names(r) == Names(e)
    ensures k !in Keys(e) ==> r == e + [(k, v)]
    ensures Unique(e) ==> Unique(r)
  {
    if e == [] then
      var r := [(k, v)];
      assert r[1..] == [];
      assert Names(r) == [k];
      r
    else if e[0].0 == k then
      var r := [(k, v)] + e[1..];
      assert r[1..] == e[1..];
      assert Names(r) == Names(e);
      r
    else
      var rest := Put(e[1..], k, v);
      var r := [e[0]] + rest;
      assert r[1..] == rest;
      assert Names(r) == [e[0].0] + Names(rest);
      assert k !in Keys(e) ==> e == [e[0]] + e[1..] && [e[0]] + (e[1..] + [(k, v)]) == e + [(k, v)];
      r
  }

  /** Puts every pair in order, as `foreach ($pairs as $k => $v) put($k, $v)`:
      for a name given twice the later value wins. */
  function PutAll<V>(e: Entries<V>, pairs: Entries<V>): (r: Entries<V>)
    ensures Keys(r) == Keys(e) + Keys(pairs)
    ensures forall j :: j in Keys(pairs) ==> Lookup(r, j) == Latest(pairs, j)
    ensures forall j :: j !in Keys(pairs) ==> Lookup(r, j) == Lookup(e, j)
    ensures Names(e) <= Names(r)
    ensures Keys(pairs) <= Keys(e) ==> Names(r) == Names(e)
    ensures Unique(e) ==> Unique(r)
    decreases |pairs|
  {
    if pairs == [] then e
    else
      var n := |pairs| - 1;
      assert pairs == pairs[..n] + [pairs[n]];
      NamesConcat(pairs[..n], [pairs[n]]);
      var before := PutAll(e, pairs[..n]);
      var r := Put(before, pairs[n].0, pairs[n].1);
      NamesConcat(before, [pairs[n]]);
      r
  }

  /** Putting a list of pairs is putting its first pair, then the rest: the
      pairs are applied left to right. */
  lemma {:induction false} PutAllFirst<V>(e: Entries<V>, pairs: Entries<V>)
    requires pairs != []
    ensures PutAll(e, pairs) == PutAll(Put(e, pairs[0].0, pairs[0].1), pairs[1..])
    decreases |pairs|
  {
    var n := |pairs| - 1;
    if n == 0 {
      assert pairs[..n] == [];
      assert pairs[1..] == [];
    } else {
      var first := Put(e, pairs[0].0, pairs[0].1);
      var front := pairs[..n];
      var tail := pairs[1..];
      assert front[0] == pairs[0];
      assert front[1..] == tail[..n - 1];
      assert tail[n - 1] == pairs[n];
      PutAllFirst(e, front);
      assert PutAll(e, front) == PutAll(first, tail[..n - 1]);
      calc {
        PutAll(e, pairs);
        Put(PutAll(e, front), pairs[n].0, pairs[n].1);
        Put(PutAll(first, tail[..n - 1]), tail[n - 1].0, tail[n - 1].1);
        PutAll(first, tail);
      }
    }
  }

  /** Two duplicate-free collections with the same names in the same order and
      the same value under every name are the same collection. */
  lemma {:induction false} SameEntries<V>(a: Entries<V>, b: Entries<V>)
    requires Unique(a)
    requires Names(a) == Names(b)
    requires forall k :: Lookup(a, k) == Lookup(b, k)
    ensures a == b
  {
    if a != [] {
      assert Names(a) == [a[0].0] + Names(a[1..]);
      assert |Names(b)| > 0;
      assert b != [];
      assert Names(b) == [b[0].0] + Names(b[1..]);
      assert Names(a)[0] == Names(b)[0];
      assert a[0].0 == b[0].0;
      assert Names(a)[1..] == Names(b)[1..];
      assert Names(a[1..]) == Names(b[1..]);
      assert Lookup(a, a[0].0) == Some(a[0].1);
      assert Lookup(b, a[0].0) == Some(b[0].1);
      forall k
        ensures Lookup(a[1..], k) == Lookup(b[1..], k)
      {
        if k != a[0].0 {
          assert Lookup(a, k) == Lookup(a[1..], k);
          assert Lookup(b, k) == Lookup(b[1..], k);
        } else {
          assert k !in Keys(a[1..]);
          assert k !in Keys(b[1..]);
        }
      }
      SameEntries(a[1..], b[1..]);
      assert a == [a[0]] + a[1..];
      assert b == [b[0]] + b[1..];
    }
  }

  /** When every entry's value is determined by its name through `f`, the
      surviving value of a present name is `f` of that name. */
  lemma {:induction false} LatestUniform<V>(e: Entries<V>, k: string, f: string -> V)
    requires forall i :: 0 <= i < |e| ==> e[i].1 == f(e[i].0)
    requires k in Keys(e)
    ensures Latest(e, k) == Some(f(k))
    decreases |e|
  {
    var n := |e| - 1;
    assert e == e[..n] + [e[n]];
    NamesConcat(e[..n], [e[n]]);
    if e[n].0 != k {
      LatestUniform(e[..n], k, f);
    }
  }

  /** In a duplicate-free collection the first and the last entry of a name
      are the same entry. */
  lemma {:induction false} LatestIsLookup<V>(e: Entries<V>, k: string)
    requires Unique(e)
    ensures Latest(e, k) == Lookup(e, k)
    decreases |e|
  {
    if e != [] {
      var n := |e| - 1;
      assert e == e[..n] + [e[n]];
      NamesConcat(e[..n], [e[n]]);
      if n > 0 {
        assert e[1..] == e[1..][..n - 1] + [e[n]];
        assert e[..n][1..] == e[1..][..n - 1];
        NamesConcat(e[1..][..n - 1], [e[n]]);
        if e[0].0 == k {
          assert k !in Keys(e[1..]);
          assert e[n].0 != k;
          assert k in Keys(e[..n]);
          assert e[..n] == [e[0]] + e[..n][1..];
          UniquePrefix(e, n);
          LatestIsLookup(e[..n], k);
        } else {
          assert Latest(e[1..], k) == Lookup(e[1..], k) by { LatestIsLookup(e[1..], k); }
          if e[n].0 != k {
            UniquePrefix(e, n);
            LatestIsLookup(e[..n], k);
            assert Lookup(e[..n], k) == Lookup(e[..n][1..], k);
            assert Latest(e[1..], k) == Latest(e[1..][..n - 1], k);
            UniquePrefix(e[1..], n - 1);
            LatestIsLookup(e[1..][..n - 1], k);
          }
        }
      }
    }
  }

  /** A prefix of a duplicate-free collection is duplicate-free. */
  lemma {:induction false} UniquePrefix<V>(e: Entries<V>, n: nat)
    requires Unique(e) && n <= |e|
    ensures Unique(e[..n])
  {
    if n > 0 {
      var tail := e[1..];
      var front := tail[..n - 1];
      assert tail == front + tail[n - 1..];
      NamesConcat(front, tail[n - 1..]);
      assert Keys(front) <= Keys(tail);
      UniquePrefix(tail, n - 1);
      var p := e[..n];
      assert p[0] == e[0];
      assert p[1..] == front;
    }
  }

  /** A name of a collection is still a name of every collection whose names
      extend its own. */
  lemma PrefixKeys<V, W>(a: Entries<V>, b: Entries<W>)
    requires Names(a) <= Names(b)
    ensures Keys(a) <= Keys(b)
  {
    forall k | k in Keys(a)
      ensures k in Keys(b)
    {
      var i :| 0 <= i < |Names(a)| && Names(a)[i] == k;
      assert Names(b)[i] == k;
    }
  }

  /** Rewrites every value with `f`, keeping names and order (Collection::map). */
  function MapValues<V, W>(e: Entries<V>, f: (string, V) -> W): (r: Entries<W>)
    ensures |r| == |e|
    ensures forall i :: 0 <= i < |e| ==> r[i] == (e[i].0, f(e[i].0, e[i].1))
  {
    seq(|e|, i requires 0 <= i < |e| => (e[i].0, f(e[i].0, e[i].1)))
  }

  /** MapValues keeps the names, and each name's value is the rewritten old one. */
  lemma {:induction false} MapValuesLookup<V, W>(e: Entries<V>, f: (string, V) -> W)
    ensures Names(MapValues(e, f)) == Names(e)
    ensures Keys(MapValues(e, f)) == Keys(e)
    ensures forall k :: k in Keys(e) ==> Lookup(MapValues(e, f), k) == Some(f(k, Lookup(e, k).value))
    ensures forall k :: k in Keys(e) ==> Latest(MapValues(e, f), k) == Some(f(k, Latest(e, k).value))
    ensures Unique(e) ==> Unique(MapValues(e, f))
  {
    if e != [] {
      var r := MapValues(e, f);
      assert r[1..] == MapValues(e[1..], f);
      MapValuesLookup(e[1..], f);
      var n := |e| - 1;
      assert r[..n] == MapValues(e[..n], f);
      MapValuesLookup(e[..n], f);
      assert e == e[..n] + [e[n]];
      NamesConcat(e[..n], [e[n]]);
      assert r == r[..n] + [r[n]];
      NamesConcat(r[..n], [r[n]]);
    }
  }

  /** Keeps only the entries whose name is listed, in their original order
      (Collection::only / Arr::only). */
  function Only<V>(e: Entries<V>, names: seq<string>): (r: Entries<V>)
    ensures Keys(r) == set k | k in Keys(e) && k in names
  {
    if e == [] then []
    else
      var rest := Only(e[1..], names);
      assert Names(e) == [e[0].0] + Names(e[1..]);
      if e[0].0 in names then
        assert ([e[0]] + rest)[1..] == rest;
        assert Names([e[0]] + rest) == [e[0].0] + Names(rest);
        assert Keys([e[0]] + rest) == {e[0].0} + Keys(rest);
        assert Keys(e) == {e[0].0} + Keys(e[1..]);
        [e[0]] + rest
      else rest
  }

  lemma {:induction false} OnlyConcat<V>(a: Entries<V>, b: Entries<V>, names: seq<string>)
    ensures Only(a + b, names) == Only(a, names) + Only(b, names)
  {
    if a != [] {
      assert (a + b)[1..] == a[1..] + b;
      OnlyConcat(a[1..], b, names);
    } else {
      assert a + b == b;
    }
  }

  /** The last value of a listed name survives the filter; nothing else does. */
  lemma {:induction false} OnlyLatest<V>(e: Entries<V>, names: seq<string>, k: string)
    ensures Latest(Only(e, names), k) == (if k in names then Latest(e, k) else None)
    decreases |e|
  {
    if e != [] {
      var n := |e| - 1;
      assert e == e[..n] + [e[n]];
      OnlyConcat(e[..n], [e[n]], names);
      assert [e[n]][1..] == [];
      OnlyLatest(e[..n], names, k);
      var front := Only(e[..n], names);
      if e[n].0 in names {
        assert Only([e[n]], names) == [e[n]];
        assert Only(e, names) == front + [e[n]];
        assert (front + [e[n]])[..|front|] == front;
      } else {
        assert Only([e[n]], names) == [];
        assert Only(e, names) == front;
      }
    }
  }
}
