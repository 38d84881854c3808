/** Python dicts, which keep insertion order: sequences of key/value
    pairs with no key twice, read by `get`, written by item assignment,
    merged by `update` and shrunk by `pop`. */
module Dicts {
  import opened Common

  type Entries<V> = seq<(string, V)>

  function KeySet<V>(d: Entries<V>): set<string>
  {
    set i | 0 <= i < |d| :: d[i].0
  }

  /** A dict: no key twice. */
  predicate DistinctKeys<V>(d: Entries<V>)
  {
    forall i, j :: 0 <= i < j < |d| ==> d[i].0 != d[j].0
  }

  /** `d.get(k)` */
  function Lookup<V>(d: Entries<V>, k: string): Option<V>
    decreases |d|
  {
    if d == [] then None else if d[0].0 == k then Some(d[0].1) else Lookup(d[1..], k)
  }

  /** `d[k] = v`: a present key keeps its place and takes the new value, a
      new key goes at the end. */
  function Put<V>(d: Entries<V>, k: string, v: V): Entries<V>
    decreases |d|
  {
    if d == [] then [(k, v)]
    else if d[0].0 == k then [(k, v)] + d[1..]
    else [d[0]] + Put(d[1..], k, v)
  }

  lemma {:induction false} LookupKeys<V>(d: Entries<V>, k: string)
    ensures Lookup(d, k).Some? <==> k in KeySet(d)
    decreases |d|
  {
    if d != [] {
      LookupKeys(d[1..], k);
      assert KeySet(d) == {d[0].0} + KeySet(d[1..]) by {
        forall x | x in KeySet(d) ensures x in {d[0].0} + KeySet(d[1..]) {
          var i :| 0 <= i < |d| && d[i].0 == x;
          if i > 0 { assert d[1..][i - 1].0 == x; }
        }
        forall x | x in KeySet(d[1..]) ensures x in KeySet(d) {
          var i :| 0 <= i < |d[1..]| && d[1..][i].0 == x;
          assert d[i + 1].0 == x;
        }
      }
    }
  }

  /** Writing a key: it reads back, every other key reads as before, the
      key set grows by that key, and a dict stays a dict. */
  lemma PutFacts<V>(d: Entries<V>, k: string, v: V)
    ensures Lookup(Put(d, k, v), k) == Some(v)
    ensures forall x :: x != k ==> Lookup(Put(d, k, v), x) == Lookup(d, x)
    ensures KeySet(Put(d, k, v)) == KeySet(d) + {k}
    ensures Put(d, k, v) != []
    ensures DistinctKeys(d) ==> DistinctKeys(Put(d, k, v))
  {
    PutLookup(d, k, v);
    PutKeys(d, k, v);
    if DistinctKeys(d) {
      PutDistinct(d, k, v);
    }
  }

  lemma {:induction false} PutLookup<V>(d: Entries<V>, k: string, v: V)
    ensures Lookup(Put(d, k, v), k) == Some(v)
    ensures forall x :: x != k ==> Lookup(Put(d, k, v), x) == Lookup(d, x)
    ensures Put(d, k, v) != []
    decreases |d|
  {
    if d != [] && d[0].0 != k {
      PutLookup(d[1..], k, v);
      assert ([d[0]] + Put(d[1..], k, v))[1..] == Put(d[1..], k, v);
    }
  }

  lemma PutKeys<V>(d: Entries<V>, k: string, v: V)
    ensures KeySet(Put(d, k, v)) == KeySet(d) + {k}
  {
    PutLookup(d, k, v);
    forall x ensures x in KeySet(Put(d, k, v)) <==> x in KeySet(d) + {k} {
      LookupKeys(Put(d, k, v), x);
      LookupKeys(d, x);
    }
  }

  lemma {:induction false} PutDistinct<V>(d: Entries<V>, k: string, v: V)
    requires DistinctKeys(d)
    ensures DistinctKeys(Put(d, k, v))
    decreases |d|
  {
    var r := Put(d, k, v);
    if d != [] && d[0].0 == k {
      forall i, j | 0 <= i < j < |r| ensures r[i].0 != r[j].0 {
        assert r[i].0 == d[i].0 && r[j].0 == d[j].0;
      }
    } else if d != [] {
      var t := Put(d[1..], k, v);
      assert DistinctKeys(d[1..]) by {
        forall i, j | 0 <= i < j < |d[1..]| ensures d[1..][i].0 != d[1..][j].0 {
          assert d[i + 1].0 != d[j + 1].0;
        }
      }
      PutDistinct(d[1..], k, v);
      PutKeys(d[1..], k, v);
      assert d[0].0 !in KeySet(d[1..]) by {
        forall j | 0 <= j < |d[1..]| ensures d[1..][j].0 != d[0].0 {
          assert d[j + 1].0 != d[0].0;
        }
      }
      assert r == [d[0]] + t;
      forall i, j | 0 <= i < j < |r| ensures r[i].0 != r[j].0 {
        if i == 0 {
          assert r[j] == t[j - 1];
          assert t[j - 1].0 in KeySet(t);
        } else {
          assert r[i] == t[i - 1] && r[j] == t[j - 1];
        }
      }
    }
  }

  /** The answer for a key of a dict grown at the end. */
  lemma {:induction false} LookupSnoc<V>(d: Entries<V>, x: (string, V), k: string)
    ensures Lookup(d + [x], k) == if Lookup(d, k).Some? then Lookup(d, k) else if x.0 == k then Some(x.1) else None
    decreases |d|
  {
    if d == [] {
      assert ([] + [x])[1..] == [];
    } else {
      assert (d + [x])[0] == d[0] && (d + [x])[1..] == d[1..] + [x];
      LookupSnoc(d[1..], x, k);
    }
  }

  /** A dict grown at the end by a new key. */
  lemma DistinctSnoc<V>(d: Entries<V>, x: (string, V))
    requires DistinctKeys(d + [x])
    ensures DistinctKeys(d) && x.0 !in KeySet(d)
  {
    var e := d + [x];
    forall i, j | 0 <= i < j < |d| ensures d[i].0 != d[j].0 {
      assert e[i] == d[i] && e[j] == d[j];
    }
    forall i | 0 <= i < |d| ensures d[i].0 != x.0 {
      assert e[i] == d[i] && e[|d|] == x;
    }
  }

  /** `d.update(e)` */
  function UpdateAll<V>(d: Entries<V>, e: Entries<V>): Entries<V>
    decreases |e|
  {
    if e == [] then d
    else
      var last := e[|e| - 1];
      Put(UpdateAll(d, e[..|e| - 1]), last.0, last.1)
  }

  /** After `d.update(e)` a key of the dict `e` reads as in `e`, any other
      as in `d`, and a dict stays a dict. */
  lemma {:induction false} UpdateAllLookup<V>(d: Entries<V>, e: Entries<V>)
    requires DistinctKeys(e)
    ensures forall k :: Lookup(UpdateAll(d, e), k) == if Lookup(e, k).Some? then Lookup(e, k) else Lookup(d, k)
    ensures DistinctKeys(d) ==> DistinctKeys(UpdateAll(d, e))
    decreases |e|
  {
    if e != [] {
      var init := e[..|e| - 1];
      var last := e[|e| - 1];
      assert e == init + [last];
      DistinctSnoc(init, last);
      UpdateAllLookup(d, init);
      PutFacts(UpdateAll(d, init), last.0, last.1);
      forall k ensures Lookup(UpdateAll(d, e), k) == if Lookup(e, k).Some? then Lookup(e, k) else Lookup(d, k) {
        LookupSnoc(init, last, k);
        LookupKeys(init, k);
      }
    }
  }

  lemma KeySetCons<V>(h: (string, V), t: Entries<V>)
    ensures KeySet([h] + t) == {h.0} + KeySet(t)
  {
    var d := [h] + t;
    assert d[0].0 == h.0;
    forall x | x in KeySet(d) ensures x in {h.0} + KeySet(t) {
      var i :| 0 <= i < |d| && d[i].0 == x;
      if i > 0 { assert t[i - 1].0 == x; }
    }
    forall x | x in KeySet(t) ensures x in KeySet(d) {
      var i :| 0 <= i < |t| && t[i].0 == x;
      assert d[i + 1].0 == x;
    }
  }

  /** `d.pop(k, None)`: the entry for k goes, the others keep their order. */
  function Pop<V>(d: Entries<V>, k: string): Entries<V>
    decreases |d|
  {
    if d == [] then []
    else if d[0].0 == k then d[1..]
    else [d[0]] + Pop(d[1..], k)
  }

  /** After a pop the key reads as absent, every other key as before, the
      key set loses that key, and a dict stays a dict. */
  lemma {:induction false} PopLookup<V>(d: Entries<V>, k: string)
    requires DistinctKeys(d)
    ensures Lookup(Pop(d, k), k) == None
    ensures forall x :: x != k ==> Lookup(Pop(d, k), x) == Lookup(d, x)
    ensures KeySet(Pop(d, k)) == KeySet(d) - {k}
    ensures DistinctKeys(Pop(d, k))
    decreases |d|
  {
    if d != [] {
      var t := d[1..];
      assert DistinctKeys(t) by {
        forall i, j | 0 <= i < j < |t| ensures t[i].0 != t[j].0 {
          assert t[i] == d[i + 1] && t[j] == d[j + 1];
        }
      }
      assert d[0].0 !in KeySet(t) by {
        forall j | 0 <= j < |t| ensures t[j].0 != d[0].0 {
          assert t[j] == d[j + 1];
        }
      }
      KeySetCons(d[0], t);
      assert [d[0]] + t == d;
      LookupKeys(t, k);
      if d[0].0 != k {
        PopLookup(t, k);
        var r := [d[0]] + Pop(t, k);
        assert r[1..] == Pop(t, k);
        KeySetCons(d[0], Pop(t, k));
        forall i, j | 0 <= i < j < |r| ensures r[i].0 != r[j].0 {
          if i == 0 {
            assert r[j] == Pop(t, k)[j - 1];
            assert r[j].0 in KeySet(Pop(t, k));
          } else {
            assert r[i] == Pop(t, k)[i - 1] && r[j] == Pop(t, k)[j - 1];
          }
        }
      }
    }
  }

  /** Popping a key that is not there changes nothing. */
  lemma {:induction false} PopAbsent<V>(d: Entries<V>, k: string)
    requires k !in KeySet(d)
    ensures Pop(d, k) == d
    decreases |d|
  {
    if d != [] {
      assert d[0].0 in KeySet(d);
      assert k !in KeySet(d[1..]) by {
        forall j | 0 <= j < |d[1..]| ensures d[1..][j].0 != k {
          assert d[1..][j] == d[j + 1];
        }
      }
      PopAbsent(d[1..], k);
      assert [d[0]] + d[1..] == d;
    }
  }
}
