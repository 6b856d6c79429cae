/**
 * `lua::LuaTable`, a `std::map<Object, Object>`, as a key-sorted entry
 * sequence: lookup, and the assignment `table[key] = value` that every
 * conversion from the engine uses to fill a table.
 */
module ObjectTable {
  import opened Options
  import opened LuaObject
  import opened ObjectOrder

  function Lookup(es: seq<Pair>, k: Object): Option<Object> {
    if es == [] then None
    else if es[0].key == k then Some(es[0].value)
    else Lookup(es[1..], k)
  }

  ghost function Keys(es: seq<Pair>): set<Object> {
    set i | 0 <= i < |es| :: es[i].key
  }

  lemma KeysCons(p: Pair, es: seq<Pair>)
    ensures Keys([p] + es) == {p.key} + Keys(es)
  {
    var r := [p] + es;
    forall k | k in Keys(r) ensures k in {p.key} + Keys(es) {
      var i :| 0 <= i < |r| && r[i].key == k;
      if i > 0 {
        assert es[i - 1].key == k;
      }
    }
    forall k | k in Keys(es) ensures k in Keys(r) {
      var i :| 0 <= i < |es| && es[i].key == k;
      assert r[i + 1].key == k;
    }
    assert r[0].key == p.key;
  }

  lemma {:induction false} LookupKeys(es: seq<Pair>, k: Object)
    ensures Lookup(es, k).Some? <==> k in Keys(es)
  {
    if es != [] {
      LookupKeys(es[1..], k);
      KeysCons(es[0], es[1..]);
      assert es == [es[0]] + es[1..];
    }
  }

  /** In a sorted table the entry for a present key is found. */
  lemma {:induction false} LookupFinds(es: seq<Pair>, i: nat)
    requires SortedKeys(es) && i < |es|
    ensures Lookup(es, es[i].key) == Some(es[i].value)
  {
    if i > 0 {
      LessIrreflexive(es[0].key);
      assert Less(es[0].key, es[i].key);
      assert SortedKeys(es[1..]) by {
        forall a, b | 0 <= a < b < |es[1..]| ensures Less(es[1..][a].key, es[1..][b].key) {
          assert es[1..][a] == es[a + 1] && es[1..][b] == es[b + 1];
        }
      }
      LookupFinds(es[1..], i - 1);
    }
  }

  lemma SortedTail(es: seq<Pair>)
    requires SortedKeys(es) && es != []
    ensures SortedKeys(es[1..])
  {
    forall a, b | 0 <= a < b < |es[1..]| ensures Less(es[1..][a].key, es[1..][b].key) {
      assert es[1..][a] == es[a + 1] && es[1..][b] == es[b + 1];
    }
  }

  /** A key below the first key of a sorted table is below every key. */
  lemma SortedCons(p: Pair, es: seq<Pair>)
    requires SortedKeys(es)
    requires es != [] ==> Less(p.key, es[0].key)
    ensures SortedKeys([p] + es)
  {
    var r := [p] + es;
    forall a, b | 0 <= a < b < |r| ensures Less(r[a].key, r[b].key) {
      if a == 0 && b > 1 {
        LessTransitive(p.key, es[0].key, es[b - 1].key);
      }
    }
  }

  /**
   * `table[k] = v`: an entry whose key is equivalent to `k` keeps its key and
   * takes the new value; otherwise a new entry goes in at its sorted place.
   */
  function Assign(es: seq<Pair>, k: Object, v: Object): (r: seq<Pair>)
    requires SortedKeys(es)
    ensures SortedKeys(r)
    ensures Lookup(r, k) == Some(v)
    ensures forall j :: j != k ==> Lookup(r, j) == Lookup(es, j)
    ensures Keys(r) == Keys(es) + {k}
    ensures |r| == |es| || |r| == |es| + 1
  {
    if es == [] then
      KeysCons(Pair(k, v), []);
      [Pair(k, v)]
    else if Less(k, es[0].key) then
      SortedCons(Pair(k, v), es);
      KeysCons(Pair(k, v), es);
      assert ([Pair(k, v)] + es)[1..] == es;
      [Pair(k, v)] + es
    else if Less(es[0].key, k) then
      SortedTail(es);
      var rest := Assign(es[1..], k, v);
      KeepFirst(es, k, rest);
      [es[0]] + rest
    else
      EquivalenceIsEquality(k, es[0].key);
      SortedTail(es);
      SortedCons(Pair(es[0].key, v), es[1..]);
      KeysCons(Pair(es[0].key, v), es[1..]);
      KeysCons(es[0], es[1..]);
      assert es == [es[0]] + es[1..];
      assert ([Pair(es[0].key, v)] + es[1..])[1..] == es[1..];
      [Pair(es[0].key, v)] + es[1..]
  }

  /** The first entry of a sorted table, put back in front of an assignment to the rest of it at a greater key. */
  lemma KeepFirst(es: seq<Pair>, k: Object, rest: seq<Pair>)
    requires SortedKeys(es) && es != [] && Less(es[0].key, k)
    requires SortedKeys(rest) && Keys(rest) == Keys(es[1..]) + {k}
    ensures SortedKeys([es[0]] + rest)
    ensures Keys([es[0]] + rest) == Keys(es) + {k}
    ensures ([es[0]] + rest)[1..] == rest
  {
    forall j | 0 <= j < |rest| ensures Less(es[0].key, rest[j].key) {
      assert rest[j].key in Keys(rest);
      if rest[j].key != k {
        var m :| 0 <= m < |es[1..]| && es[1..][m].key == rest[j].key;
        assert es[m + 1].key == rest[j].key;
      }
    }
    SortedCons(es[0], rest);
    KeysCons(es[0], rest);
    KeysCons(es[0], es[1..]);
    assert es == [es[0]] + es[1..];
  }

  /** A later assignment to the same key overwrites an earlier one. */
  lemma {:induction false} AssignOverwrites(es: seq<Pair>, k: Object, v1: Object, v2: Object)
    requires SortedKeys(es)
    ensures Assign(Assign(es, k, v1), k, v2) == Assign(es, k, v2)
  {
    LessIrreflexive(k);
    if es != [] && Less(es[0].key, k) {
      SortedTail(es);
      AssignOverwrites(es[1..], k, v1, v2);
      var rest := Assign(es[1..], k, v1);
      assert ([es[0]] + rest)[0] == es[0] && ([es[0]] + rest)[1..] == rest;
    } else if es != [] && !Less(k, es[0].key) {
      EquivalenceIsEquality(k, es[0].key);
    }
  }

  lemma AssignPastFirst(es: seq<Pair>, k: Object, v: Object)
    requires SortedKeys(es) && es != [] && Less(es[0].key, k)
    ensures SortedKeys(es[1..])
    ensures Assign(es, k, v) == [es[0]] + Assign(es[1..], k, v)
  {
    LessAsymmetric(es[0].key, k);
    SortedTail(es);
  }

  /** Assigning a key above every present key appends an entry. */
  lemma {:induction false} AssignGreatest(es: seq<Pair>, k: Object, v: Object)
    requires SortedKeys(es)
    requires forall i :: 0 <= i < |es| ==> Less(es[i].key, k)
    ensures Assign(es, k, v) == es + [Pair(k, v)]
  {
    if es != [] {
      AssignPastFirst(es, k, v);
      var tail := es[1..];
      forall i | 0 <= i < |tail| ensures Less(tail[i].key, k) {
        assert tail[i] == es[i + 1];
      }
      AssignGreatest(tail, k, v);
      assert es == [es[0]] + tail;
      calc {
        Assign(es, k, v);
        [es[0]] + Assign(tail, k, v);
        [es[0]] + (tail + [Pair(k, v)]);
        ([es[0]] + tail) + [Pair(k, v)];
      }
    }
  }
}
