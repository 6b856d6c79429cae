/**
 * Properties of the conversions: what is pushed comes back unchanged, the
 * nesting budget bounds every conversion, no ignored Object is ever pulled,
 * and the typed number pulls agree with each other.
 */
module MarshalProperties {
  import opened Options
  import opened LuaObject
  import opened ObjectOrder
  import opened ObjectTable
  import opened LuaEngine
  import opened MarshalSpec

  /**
   * An Object that survives the trip into the engine and back: strings
   * without NUL, tables sorted by key with no nil key or value, at any depth.
   */
  ghost predicate Transferable(o: Object)
    decreases o, 1
  {
    match o
    case String(s) => '\0' !in s
    case Table(es) =>
      SortedKeys(es) &&
      forall i :: 0 <= i < |es| ==>
        es[i].key != Nil && es[i].value != Nil && Transferable(es[i].key) && Transferable(es[i].value)
    case _ => true
  }

  lemma {:induction false} RawSetAppend(t: LTableContents, k: LVal, v: LVal)
    requires v != LNil && forall i :: 0 <= i < |t| ==> t[i].key != k
    ensures RawSet(t, k, v) == t + [LPair(k, v)]
  {
    if t != [] {
      RawSetAppend(t[1..], k, v);
      assert t == [t[0]] + t[1..];
    }
  }

  /** Entries with distinct keys and non-nil values build exactly themselves. */
  lemma {:induction false} BuildDistinct(ps: seq<LPair>)
    requires forall i, j :: 0 <= i < j < |ps| ==> ps[i].key != ps[j].key
    requires forall i :: 0 <= i < |ps| ==> ps[i].value != LNil
    ensures Build(ps) == ps
  {
    if ps != [] {
      var init := ps[..|ps| - 1];
      BuildDistinct(init);
      RawSetAppend(init, ps[|ps| - 1].key, ps[|ps| - 1].value);
      assert ps == init + [ps[|ps| - 1]];
    }
  }

  /** One step of a table traversal whose key and value are kept. */
  lemma ConvertEntriesStep(h: Heap, room: int, t: LTableContents, ignore: set<Object>, level: int, i: nat,
                           acc: seq<Pair>, k: Object, v: Object)
    requires Closed(h) && TableRefsIn(t, h.Keys) && level > 0 && i < |t|
    requires ConvertEntries(h, room, t, ignore, level, i) == Ok(acc)
    requires Convert(h, room, Some(t[i].key), {}, level - 1) == Ok(k) && k !in ignore
    requires Convert(h, room, Some(t[i].value), {}, level - 1) == Ok(v) && v !in ignore
    ensures SortedKeys(acc)
    ensures ConvertEntries(h, room, t, ignore, level, i + 1) == Ok(Assign(acc, k, v))
  {
  }

  /** Assigning the next entry of a sorted table to its prefix extends the prefix by that entry. */
  lemma AssignNextEntry(es: seq<Pair>, i: nat)
    requires SortedKeys(es) && i < |es|
    ensures SortedKeys(es[..i])
    ensures Assign(es[..i], es[i].key, es[i].value) == es[..i + 1]
  {
    var prefix := es[..i];
    SortedPrefix(es, i);
    var last := es[i];
    AssignGreatest(prefix, last.key, last.value);
    assert Pair(last.key, last.value) == last;
    TakeNext(es, i);
  }

  lemma TakeNext<T>(s: seq<T>, i: nat)
    requires i < |s|
    ensures s[..i + 1] == s[..i] + [s[i]]
  {
  }

  /** The first `n` entries of a sorted table are sorted, and all below entry `n`. */
  lemma SortedPrefix(es: seq<Pair>, n: nat)
    requires SortedKeys(es) && n < |es|
    ensures SortedKeys(es[..n])
    ensures forall m :: 0 <= m < n ==> Less(es[..n][m].key, es[n].key)
  {
    var prefix := es[..n];
    forall a, b | 0 <= a < b < |prefix| ensures Less(prefix[a].key, prefix[b].key) {
      assert prefix[a] == es[a] && prefix[b] == es[b];
    }
    forall m | 0 <= m < n ensures Less(prefix[m].key, es[n].key) {
      assert prefix[m] == es[m];
    }
  }

  /** Every encoded entry converts back to the entry it encodes. */
  ghost predicate EntriesConvert(h: Heap, room: int, ps: seq<LPair>, es: seq<Pair>, level: int)
    requires Closed(h) && TableRefsIn(ps, h.Keys) && level > 0 && |ps| == |es|
  {
    forall j :: 0 <= j < |es| ==>
      Convert(h, room, Some(ps[j].key), {}, level - 1) == Ok(es[j].key) &&
      Convert(h, room, Some(ps[j].value), {}, level - 1) == Ok(es[j].value)
  }

  /** Converting encoded entries in order rebuilds the sorted entries one append at a time. */
  lemma {:induction false} ConvertEncodedEntries(h: Heap, room: int, ps: seq<LPair>, es: seq<Pair>, level: int, i: nat)
    requires Closed(h) && TableRefsIn(ps, h.Keys) && level > 0 && i <= |ps| == |es| && SortedKeys(es)
    requires EntriesConvert(h, room, ps, es, level)
    ensures ConvertEntries(h, room, ps, {}, level, i) == Ok(es[..i])
  {
    if i > 0 {
      var j := i - 1;
      ConvertEncodedEntries(h, room, ps, es, level, j);
      EncodedEntryStep(h, room, ps, es, level, j);
    } else {
      assert es[..i] == [];
    }
  }

  /** Pulling entry `i` of an encoded table extends the pulled prefix by the entry it encodes. */
  lemma EncodedEntryStep(h: Heap, room: int, ps: seq<LPair>, es: seq<Pair>, level: int, i: nat)
    requires Closed(h) && TableRefsIn(ps, h.Keys) && level > 0 && i < |ps| == |es| && SortedKeys(es)
    requires EntriesConvert(h, room, ps, es, level)
    requires ConvertEntries(h, room, ps, {}, level, i) == Ok(es[..i])
    ensures ConvertEntries(h, room, ps, {}, level, i + 1) == Ok(es[..i + 1])
  {
    var k, v := es[i].key, es[i].value;
    assert Convert(h, room, Some(ps[i].key), {}, level - 1) == Ok(k);
    assert Convert(h, room, Some(ps[i].value), {}, level - 1) == Ok(v);
    AssignNextEntry(es, i);
    ConvertEntriesStep(h, room, ps, {}, level, i, es[..i], k, v);
  }

  /**
   * Pushing then pulling gives back the Object, for every transferable Object
   * whose nesting fits the budget and the free stack space.
   */
  lemma {:induction false} RoundTrip(h: Heap, avoid: set<Ref>, v: LVal, o: Object, room: int, level: int)
    requires Closed(h) && Encodes(h, avoid, v, o) && Transferable(o)
    requires level > Depth(o) && room >= 2 * Depth(o)
    ensures RefsIn(v, h.Keys)
    ensures Convert(h, room, Some(v), {}, level) == Ok(o)
    decreases o, 4
  {
    if o.Table? {
      TableRoundTrip(h, avoid, v, o, room, level);
    } else {
      ScalarRoundTrip(h, avoid, v, o, room, level);
    }
  }

  /** The table case of the round trip: the entries the push stored are traversed back in order. */
  lemma TableRoundTrip(h: Heap, avoid: set<Ref>, v: LVal, o: Object, room: int, level: int)
    requires Closed(h) && o.Table? && Encodes(h, avoid, v, o) && Transferable(o)
    requires level > Depth(o) && room >= 2 * Depth(o)
    ensures RefsIn(v, h.Keys)
    ensures Convert(h, room, Some(v), {}, level) == Ok(o)
    decreases o, 3
  {
    var ps: seq<LPair> :| PairsEncode(h, avoid, ps, o.entries) && h[v.ref] == Build(ps);
    StoredTableRoundTrip(h, avoid, v, ps, o, room, level);
  }

  /** A table stored from encoded entries converts back to the table of those entries. */
  lemma StoredTableRoundTrip(h: Heap, avoid: set<Ref>, v: LVal, ps: seq<LPair>, o: Object, room: int, level: int)
    requires Closed(h) && o.Table? && v.LTable? && v.ref in h && Transferable(o)
    requires PairsEncode(h, avoid, ps, o.entries) && h[v.ref] == Build(ps)
    requires level > Depth(o) && room >= 2 * Depth(o)
    ensures RefsIn(v, h.Keys)
    ensures Convert(h, room, Some(v), {}, level) == Ok(o)
    decreases o, 2
  {
    EntriesRoundTrip(h, avoid, ps, o, room - 2, level);
    TableConverts(h, room, v, ps, o.entries, level);
  }

  /** A table whose traversal succeeds converts to the table of the traversed entries. */
  lemma TableConverts(h: Heap, room: int, v: LVal, t: LTableContents, es: seq<Pair>, level: int)
    requires Closed(h) && v.LTable? && v.ref in h && h[v.ref] == t && TableRefsIn(t, h.Keys) && level > 0 && room >= 2
    requires ConvertEntries(h, room - 2, t, {}, level, |t|) == Ok(es)
    ensures RefsIn(v, h.Keys)
    ensures Convert(h, room, Some(v), {}, level) == Ok(Table(es))
  {
  }

  /** Every Object other than a table comes back from the value it is pushed as. */
  lemma ScalarRoundTrip(h: Heap, avoid: set<Ref>, v: LVal, o: Object, room: int, level: int)
    requires Closed(h) && !o.Table? && Encodes(h, avoid, v, o) && Transferable(o) && level > 0
    ensures RefsIn(v, h.Keys)
    ensures Convert(h, room, Some(v), {}, level) == Ok(o)
  {
  }

  /** The stored entries of an encoded transferable table are traversed back into its entries, one level down. */
  lemma EntriesRoundTrip(h: Heap, avoid: set<Ref>, ps: seq<LPair>, o: Object, room: int, level: int)
    requires Closed(h) && o.Table? && PairsEncode(h, avoid, ps, o.entries) && Transferable(o)
    requires level > Depth(o) && room + 2 >= 2 * Depth(o)
    ensures TableRefsIn(ps, h.Keys) && Build(ps) == ps
    ensures ConvertEntries(h, room, ps, {}, level, |ps|) == Ok(o.entries)
    decreases o, 1
  {
    forall j | 0 <= j < |ps|
      ensures RefsIn(ps[j].key, h.Keys) && RefsIn(ps[j].value, h.Keys) && ps[j].value != LNil
      ensures Convert(h, room, Some(ps[j].key), {}, level - 1) == Ok(o.entries[j].key)
      ensures Convert(h, room, Some(ps[j].value), {}, level - 1) == Ok(o.entries[j].value)
    {
      EntryEncodes(h, avoid, ps, o, j);
      PairRoundTrip(h, avoid, ps[j], o.entries[j], room, level - 1);
    }
    EncodedTableConverts(h, room, ps, o.entries, level);
  }

  /** Entry `j` of an encoded transferable table encodes a transferable entry, shallower than the table. */
  lemma EntryEncodes(h: Heap, avoid: set<Ref>, ps: seq<LPair>, o: Object, j: nat)
    requires o.Table? && PairsEncode(h, avoid, ps, o.entries) && Transferable(o) && j < |ps|
    ensures Encodes(h, avoid, ps[j].key, o.entries[j].key) && Encodes(h, avoid, ps[j].value, o.entries[j].value)
    ensures Transferable(o.entries[j].key) && Transferable(o.entries[j].value) && ps[j].value != LNil
    ensures Depth(o.entries[j].key) < Depth(o) && Depth(o.entries[j].value) < Depth(o)
  {
    var e := o.entries[j];
    assert Encodes(h, avoid, ps[j].key, e.key) && Encodes(h, avoid, ps[j].value, e.value);
    assert Transferable(e.key) && Transferable(e.value) && e.value != Nil;
    EntriesDepthBound(o.entries, 0, j);
  }

  /** Both halves of one encoded entry convert back. */
  lemma PairRoundTrip(h: Heap, avoid: set<Ref>, p: LPair, e: Pair, room: int, level: int)
    requires Closed(h) && Encodes(h, avoid, p.key, e.key) && Encodes(h, avoid, p.value, e.value)
    requires Transferable(e.key) && Transferable(e.value)
    requires level > Depth(e.key) && level > Depth(e.value) && room >= 2 * Depth(e.key) && room >= 2 * Depth(e.value)
    ensures RefsIn(p.key, h.Keys) && RefsIn(p.value, h.Keys)
    ensures Convert(h, room, Some(p.key), {}, level) == Ok(e.key)
    ensures Convert(h, room, Some(p.value), {}, level) == Ok(e.value)
    decreases e, 0
  {
    RoundTrip(h, avoid, p.key, e.key, room, level);
    RoundTrip(h, avoid, p.value, e.value, room, level);
  }

  /** Entries that convert back one by one, with sorted keys, are what the traversal of their table yields. */
  lemma EncodedTableConverts(h: Heap, room: int, ps: seq<LPair>, es: seq<Pair>, level: int)
    requires Closed(h) && TableRefsIn(ps, h.Keys) && level > 0 && |ps| == |es| && SortedKeys(es)
    requires forall j :: 0 <= j < |ps| ==> ps[j].value != LNil
    requires EntriesConvert(h, room, ps, es, level)
    ensures Build(ps) == ps
    ensures ConvertEntries(h, room, ps, {}, level, |ps|) == Ok(es)
  {
    forall a, b | 0 <= a < b < |ps| ensures ps[a].key != ps[b].key {
      LessIrreflexive(es[a].key);
      assert Convert(h, room, Some(ps[a].key), {}, level - 1) == Ok(es[a].key);
      assert Convert(h, room, Some(ps[b].key), {}, level - 1) == Ok(es[b].key);
    }
    BuildDistinct(ps);
    ConvertEncodedEntries(h, room, ps, es, level, |ps|);
    assert es[..|es|] == es;
  }

  /** An exhausted budget fails before the slot is even looked at. */
  lemma BudgetCheckedFirst(h: Heap, room: int, slot: Option<LVal>, ignore: set<Object>, level: int)
    requires Closed(h) && (slot.Some? ==> RefsIn(slot.value, h.Keys)) && level <= 0
    ensures Convert(h, room, slot, ignore, level) == Err(TableTooDeep)
  {
  }

  /** Pulling a table skips the ignored keys and values and never puts one in its result. */
  lemma {:induction false} IgnoredNeverPulled(h: Heap, room: int, t: LTableContents, ignore: set<Object>, level: int, i: nat)
    requires Closed(h) && TableRefsIn(t, h.Keys) && level > 0 && i <= |t|
    requires ConvertEntries(h, room, t, ignore, level, i).Ok?
    ensures var es := ConvertEntries(h, room, t, ignore, level, i).value;
      forall j :: 0 <= j < |es| ==> es[j].key !in ignore && es[j].value !in ignore
  {
    if i > 0 {
      IgnoredNeverPulled(h, room, t, ignore, level, i - 1);
      var acc := ConvertEntries(h, room, t, ignore, level, i - 1).value;
      var es := ConvertEntries(h, room, t, ignore, level, i).value;
      forall j | 0 <= j < |es| ensures es[j].key !in ignore && es[j].value !in ignore {
        if es != acc {
          var key := Convert(h, room, Some(t[i - 1].key), {}, level - 1).value;
          var value := Convert(h, room, Some(t[i - 1].value), {}, level - 1).value;
          assert es == Assign(acc, key, value);
          LookupFinds(es, j);
          if es[j].key != key {
            assert Lookup(acc, es[j].key) == Some(es[j].value);
            LookupKeys(acc, es[j].key);
            var m :| 0 <= m < |acc| && acc[m].key == es[j].key;
            LookupFinds(acc, m);
          }
        }
      }
    }
  }

  /** The integer pull succeeds exactly when the number pull yields a whole number, and then agrees with it. */
  lemma IntegerAgreesWithNumber(c: Coercion, slot: Option<LVal>)
    ensures PullInteger(c, slot).Ok? ==> PullNumber(c, slot) == Ok(PullInteger(c, slot).value as real)
    ensures PullNumber(c, slot).Ok? && PullNumber(c, slot).value.Floor as real == PullNumber(c, slot).value ==>
      PullInteger(c, slot) == Ok(PullNumber(c, slot).value.Floor)
    ensures PullNumber(c, slot).Err? ==> PullInteger(c, slot).Err?
  {
    if PullNumber(c, slot).Ok? {
      var n := PullNumber(c, slot).value;
      if n.Floor as real == n {
        TruncOfInteger(n.Floor);
      }
    }
  }

  /**
   * Within the budget, values the host has no kind for become nil, and a
   * function defined in Lua becomes the null C function.
   */
  lemma OpaqueValuesPull(h: Heap, room: int, v: LVal, ignore: set<Object>, level: int)
    requires Closed(h) && RefsIn(v, h.Keys) && level > 0
    ensures v.LNil? || v.LUserdata? || v.LLightUserdata? || v.LThread? ==> Convert(h, room, Some(v), ignore, level) == Ok(Nil)
    ensures v.LLuaFunction? ==> Convert(h, room, Some(v), ignore, level) == Ok(Function(NullFunction))
  {
  }
}
