/** Python's insertion-ordered `dict` with string keys, as a sequence of
    (key, value) entries. `Insert` is `d[k] = v`: an existing key keeps its
    place and takes the new value, a new key goes to the end. */
module OrderedDict {
  import opened Text

  type Dict<V> = seq<(string, V)>

  function Keys<V>(d: Dict<V>): (ks: seq<string>)
    ensures |ks| == |d| && forall i :: 0 <= i < |d| ==> ks[i] == d[i].0
  {
    if d == [] then [] else [d[0].0] + Keys(d[1..])
  }

  predicate DistinctKeys<V>(d: Dict<V>) {
    forall i, j :: 0 <= i < j < |d| ==> d[i].0 != d[j].0
  }

  /** The value stored under `k`, if any. */
  function Lookup<V>(d: Dict<V>, k: string): (r: Option<V>)
    ensures r.None? <==> k !in Keys(d)
    ensures r.Some? ==> exists i :: 0 <= i < |d| && d[i] == (k, r.value)
  {
    if d == [] then None
    else if d[0].0 == k then Some(d[0].1)
    else
      var r := Lookup(d[1..], k);
      assert Keys(d) == [d[0].0] + Keys(d[1..]);
      r
  }

  /** `d[k] = v`. */
  function Insert<V>(d: Dict<V>, k: string, v: V): (r: Dict<V>)
    ensures Keys(r) == if k in Keys(d) then Keys(d) else Keys(d) + [k]
  {
    if d == [] then [(k, v)]
    else if d[0].0 == k then [(k, v)] + d[1..]
    else
      var r := [d[0]] + Insert(d[1..], k, v);
      assert Keys(r) == [d[0].0] + Keys(Insert(d[1..], k, v));
      assert Keys(d) == [d[0].0] + Keys(d[1..]);
      r
  }

  /** `d.update(e)` with `e` given as its entries in order. */
  function Update<V>(d: Dict<V>, e: seq<(string, V)>): Dict<V>
    decreases |e|
  {
    if e == [] then d else Update(Insert(d, e[0].0, e[0].1), e[1..])
  }

  /** The dict a sequence of (key, value) pairs denotes, as `json.load`
      builds an object: a repeated key keeps its first place and its last
      value. */
  function FromPairs<V>(pairs: seq<(string, V)>): Dict<V> {
    Update([], pairs)
  }

  /** The value a sequence of pairs gives a key last. */
  function LastValue<V>(e: seq<(string, V)>, k: string): (r: Option<V>)
    ensures r.None? <==> k !in Keys(e)
  {
    if e == [] then None
    else
      var r := LastValue(e[1..], k);
      assert Keys(e) == [e[0].0] + Keys(e[1..]);
      if r.Some? then r else if e[0].0 == k then Some(e[0].1) else None
  }

  lemma {:induction false} InsertDistinct<V>(d: Dict<V>, k: string, v: V)
    requires DistinctKeys(d)
    ensures DistinctKeys(Insert(d, k, v))
  {
    var r := Insert(d, k, v);
    var ks := Keys(r);
    forall i, j | 0 <= i < j < |r| ensures r[i].0 != r[j].0 {
      assert ks[i] == r[i].0 && ks[j] == r[j].0;
      if k in Keys(d) {
        assert Keys(d)[i] == d[i].0 && Keys(d)[j] == d[j].0;
      } else {
        assert j < |d| ==> Keys(d)[i] == d[i].0 && Keys(d)[j] == d[j].0;
        assert j == |d| ==> ks[j] == k && Keys(d)[i] == d[i].0;
      }
    }
  }

  lemma {:induction false} InsertLookup<V>(d: Dict<V>, k: string, v: V, q: string)
    ensures Lookup(Insert(d, k, v), q) == if q == k then Some(v) else Lookup(d, q)
    decreases |d|
  {
    if d != [] && d[0].0 != k {
      InsertLookup(d[1..], k, v, q);
      assert Insert(d, k, v)[1..] == Insert(d[1..], k, v);
    }
  }

  /** After `d.update(e)`, a key `e` mentions holds the last value `e` gives
      it, and every other key keeps its value from `d`. */
  lemma {:induction false} UpdateLookup<V>(d: Dict<V>, e: seq<(string, V)>, q: string)
    ensures Lookup(Update(d, e), q) == if q in Keys(e) then LastValue(e, q) else Lookup(d, q)
    decreases |e|
  {
    if e != [] {
      UpdateLookup(Insert(d, e[0].0, e[0].1), e[1..], q);
      InsertLookup(d, e[0].0, e[0].1, q);
      assert Keys(e) == [e[0].0] + Keys(e[1..]);
    }
  }

  /** `d.update(e)` never repeats a key. */
  lemma {:induction false} UpdateDistinct<V>(d: Dict<V>, e: seq<(string, V)>)
    requires DistinctKeys(d)
    ensures DistinctKeys(Update(d, e))
    decreases |e|
  {
    if e != [] {
      InsertDistinct(d, e[0].0, e[0].1);
      UpdateDistinct(Insert(d, e[0].0, e[0].1), e[1..]);
    }
  }

  /** `d.update(e)` keeps the keys of `d` in their places and appends the
      new keys of `e`. */
  lemma {:induction false} UpdateKeysPrefix<V>(d: Dict<V>, e: seq<(string, V)>)
    ensures |Keys(d)| <= |Keys(Update(d, e))| && Keys(Update(d, e))[..|d|] == Keys(d)
    ensures forall k :: k in Keys(Update(d, e)) <==> k in Keys(d) || k in Keys(e)
    decreases |e|
  {
    if e != [] {
      var d' := Insert(d, e[0].0, e[0].1);
      UpdateKeysPrefix(d', e[1..]);
      assert Keys(e) == [e[0].0] + Keys(e[1..]);
      assert Keys(d')[..|d|] == Keys(d);
    }
  }

  /** In a dict without repeated keys, each entry is what its key looks up. */
  lemma {:induction false} LookupDistinctAt<V>(d: Dict<V>, i: nat)
    requires DistinctKeys(d) && i < |d|
    ensures Lookup(d, d[i].0) == Some(d[i].1)
    decreases |d|
  {
    if i > 0 {
      assert d[0].0 != d[i].0;
      assert d[1..][i - 1] == d[i];
      LookupDistinctAt(d[1..], i - 1);
    }
  }

  /** The dict built from pairs looks a key up to the last value the pairs
      give it, and repeats no key. */
  lemma FromPairsLookup<V>(pairs: seq<(string, V)>, k: string)
    ensures Lookup(FromPairs(pairs), k) == LastValue(pairs, k)
    ensures DistinctKeys(FromPairs(pairs))
    ensures forall q :: q in Keys(FromPairs(pairs)) <==> q in Keys(pairs)
  {
    UpdateLookup([], pairs, k);
    UpdateDistinct([], pairs);
    UpdateKeysPrefix([], pairs);
  }

  /** In a dict without repeated keys, the last value given is the one
      stored. */
  lemma {:induction false} LastValueDistinct<V>(d: Dict<V>, k: string)
    requires DistinctKeys(d)
    ensures LastValue(d, k) == Lookup(d, k)
    decreases |d|
  {
    if d != [] {
      assert DistinctKeys(d[1..]) by {
        forall i, j | 0 <= i < j < |d[1..]| ensures d[1..][i].0 != d[1..][j].0 {
          assert d[1..][i] == d[i + 1] && d[1..][j] == d[j + 1];
        }
      }
      LastValueDistinct(d[1..], k);
      if d[0].0 == k {
        assert k !in Keys(d[1..]) by {
          forall i | 0 <= i < |d[1..]| ensures Keys(d[1..])[i] != k {
            assert Keys(d[1..])[i] == d[i + 1].0;
          }
        }
      }
    }
  }
}
