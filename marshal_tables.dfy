/**
 * The rules of the table branch of the Object pull: how the ignore list,
 * the key-then-value order, overwriting and the depth budget act on a
 * table traversal, stated for every table, with an instance of each.
 */
module TableBranch {
  import opened Options
  import opened LuaObject
  import opened ObjectTable
  import opened LuaEngine
  import opened MarshalSpec

  /** An instance of `IgnoredKeySkipsValue`: the value under an ignored key is too deep, yet the pull succeeds. */
  lemma IgnoredKeySkipsValueExample(h: Heap, r: Ref, deep: Ref)
    requires Closed(h) && r in h && deep in h
    requires h[r] == [LPair(LString("skip"), LTable(deep))]
    requires h[deep] == [LPair(LNumber(1.0), LNumber(2.0))]
    ensures Convert(h, 8, Some(LTable(r)), {String("skip")}, 2) == Ok(Table([]))
    ensures Convert(h, 8, Some(LTable(r)), {}, 2) == Err(TableTooDeep)
  {
    assert CString("skip") == "skip";
    assert ConvertEntries(h, 4, h[deep], {}, 1, 1).Err?;
  }

  /** An instance of `LaterEntryWins`: two keys that differ only after a NUL collapse into one, and the later value stays. */
  lemma LaterEntryWinsExample(h: Heap, r: Ref)
    requires Closed(h) && r in h
    requires h[r] == [LPair(LString("a\0x"), LNumber(1.0)), LPair(LString("a\0y"), LNumber(2.0))]
    ensures Convert(h, 8, Some(LTable(r)), {}, 8) == Ok(Table([Pair(String("a"), Number(2.0))]))
  {
    var a := String("a");
    assert CString("a\0x") == "a" && CString("a\0y") == "a";
    assert Convert(h, 6, Some(LString("a\0x")), {}, 7) == Ok(a);
    assert Convert(h, 6, Some(LString("a\0y")), {}, 7) == Ok(a);
    assert ConvertEntries(h, 6, h[r], {}, 8, 1) == Ok(Assign([], a, Number(1.0)));
    AssignOverwrites([], a, Number(1.0), Number(2.0));
    assert ConvertEntries(h, 6, h[r], {}, 8, 2) == Ok(Assign([], a, Number(2.0)));
  }

  /** A key is ignored before its value is looked at: whatever the value is, the pass keeps the result as it was. */
  lemma IgnoredKeySkipsValue(h: Heap, room: int, t: LTableContents, ignore: set<Object>, level: int, i: nat,
                             acc: seq<Pair>, key: Object)
    requires Closed(h) && TableRefsIn(t, h.Keys) && level > 0 && i < |t|
    requires ConvertEntries(h, room, t, ignore, level, i) == Ok(acc)
    requires Convert(h, room, Some(t[i].key), {}, level - 1) == Ok(key) && key in ignore
    ensures ConvertEntries(h, room, t, ignore, level, i + 1) == Ok(acc)
  {
  }

  /**
   * `table[key] = value` of a kept entry: the key now maps to the later
   * value, whatever an earlier entry stored under it, and every other key
   * keeps what it had.
   */
  lemma LaterEntryWins(h: Heap, room: int, t: LTableContents, ignore: set<Object>, level: int, i: nat,
                       acc: seq<Pair>, key: Object, value: Object)
    requires Closed(h) && TableRefsIn(t, h.Keys) && level > 0 && i < |t|
    requires ConvertEntries(h, room, t, ignore, level, i) == Ok(acc)
    requires Convert(h, room, Some(t[i].key), {}, level - 1) == Ok(key) && key !in ignore
    requires Convert(h, room, Some(t[i].value), {}, level - 1) == Ok(value) && value !in ignore
    ensures ConvertEntries(h, room, t, ignore, level, i + 1).Ok?
    ensures Lookup(ConvertEntries(h, room, t, ignore, level, i + 1).value, key) == Some(value)
    ensures forall k :: k != key ==> Lookup(ConvertEntries(h, room, t, ignore, level, i + 1).value, k) == Lookup(acc, k)
  {
  }

  /**
   * The ignore list applies to the top level only: every entry of a pulled
   * table is the pull of some stored key and value with one level less and
   * the empty ignore list, whatever the outer list is, so nested tables are
   * pulled in full.
   */
  lemma {:induction false} IgnoreIsShallow(h: Heap, room: int, t: LTableContents, ignore: set<Object>, level: int, i: nat)
    requires Closed(h) && TableRefsIn(t, h.Keys) && level > 0 && i <= |t|
    requires ConvertEntries(h, room, t, ignore, level, i).Ok?
    ensures FromStored(h, room, t, level, i, ConvertEntries(h, room, t, ignore, level, i).value)
  {
    if i > 0 {
      var j := i - 1;
      PassShape(h, room, t, ignore, level, j);
      IgnoreIsShallow(h, room, t, ignore, level, j);
      ShallowInduct(h, room, t, ignore, level, j);
    }
  }

  /** One pass of the traversal keeps every pulled entry traceable to a stored entry. */
  lemma ShallowInduct(h: Heap, room: int, t: LTableContents, ignore: set<Object>, level: int, i: nat)
    requires Closed(h) && TableRefsIn(t, h.Keys) && level > 0 && i < |t|
    requires ConvertEntries(h, room, t, ignore, level, i + 1).Ok?
    requires ConvertEntries(h, room, t, ignore, level, i).Ok?
    requires FromStored(h, room, t, level, i, ConvertEntries(h, room, t, ignore, level, i).value)
    requires ConvertEntries(h, room, t, ignore, level, i + 1).value == ConvertEntries(h, room, t, ignore, level, i).value ||
      Passed(h, room, t, level, i, ConvertEntries(h, room, t, ignore, level, i).value, ConvertEntries(h, room, t, ignore, level, i + 1).value)
    ensures FromStored(h, room, t, level, i + 1, ConvertEntries(h, room, t, ignore, level, i + 1).value)
  {
    var acc := ConvertEntries(h, room, t, ignore, level, i).value;
    var es := ConvertEntries(h, room, t, ignore, level, i + 1).value;
    ShallowPass(h, room, t, level, i, acc, es);
  }

  /** A pass of the traversal that succeeds leaves the result as it was or assigns the pulled entry into it. */
  lemma PassShape(h: Heap, room: int, t: LTableContents, ignore: set<Object>, level: int, i: nat)
    requires Closed(h) && TableRefsIn(t, h.Keys) && level > 0 && i < |t|
    requires ConvertEntries(h, room, t, ignore, level, i + 1).Ok?
    ensures ConvertEntries(h, room, t, ignore, level, i).Ok?
    ensures ConvertEntries(h, room, t, ignore, level, i + 1).value == ConvertEntries(h, room, t, ignore, level, i).value ||
      Passed(h, room, t, level, i, ConvertEntries(h, room, t, ignore, level, i).value, ConvertEntries(h, room, t, ignore, level, i + 1).value)
  {
  }

  /** `es` is `acc` with the entry `i` assigned, pulled with one level less and no ignore list. */
  ghost predicate Passed(h: Heap, room: int, t: LTableContents, level: int, i: nat, acc: seq<Pair>, es: seq<Pair>)
    requires Closed(h) && TableRefsIn(t, h.Keys) && i < |t|
  {
    var key := Convert(h, room, Some(t[i].key), {}, level - 1);
    var value := Convert(h, room, Some(t[i].value), {}, level - 1);
    key.Ok? && value.Ok? && SortedKeys(acc) && es == Assign(acc, key.value, value.value)
  }

  /** Every entry of `es` is what one of the first `i` stored entries pulls to. */
  ghost predicate FromStored(h: Heap, room: int, t: LTableContents, level: int, i: nat, es: seq<Pair>)
    requires Closed(h) && TableRefsIn(t, h.Keys) && i <= |t|
  {
    forall m :: 0 <= m < |es| ==> PulledFromSome(h, room, t, level, i, es[m])
  }

  /** Entry `e` is what one of the first `i` stored entries pulls to. */
  ghost predicate PulledFromSome(h: Heap, room: int, t: LTableContents, level: int, i: nat, e: Pair)
    requires Closed(h) && TableRefsIn(t, h.Keys) && i <= |t|
  {
    exists j :: 0 <= j < i && PulledFrom(h, room, t, level, j, e)
  }

  /** The entries after a pass come from the stored entries up to that pass. */
  lemma ShallowPass(h: Heap, room: int, t: LTableContents, level: int, i: nat, acc: seq<Pair>, es: seq<Pair>)
    requires Closed(h) && TableRefsIn(t, h.Keys) && i < |t|
    requires FromStored(h, room, t, level, i, acc)
    requires es == acc || Passed(h, room, t, level, i, acc, es)
    ensures FromStored(h, room, t, level, i + 1, es)
  {
    forall m | 0 <= m < |es| ensures PulledFromSome(h, room, t, level, i + 1, es[m]) {
      if es == acc {
        var e := acc[m];
        var j :| 0 <= j < i && PulledFrom(h, room, t, level, j, e);
        assert PulledFrom(h, room, t, level, j, es[m]);
      } else {
        var key := Convert(h, room, Some(t[i].key), {}, level - 1).value;
        var value := Convert(h, room, Some(t[i].value), {}, level - 1).value;
        ShallowStep(h, room, t, level, i, acc, key, value, m);
      }
    }
  }

  /** An entry of `table[key] = value` is the new pair or one of the entries before it. */
  lemma ShallowStep(h: Heap, room: int, t: LTableContents, level: int, i: nat,
                    acc: seq<Pair>, key: Object, value: Object, m: nat)
    requires Closed(h) && TableRefsIn(t, h.Keys) && i < |t| && SortedKeys(acc)
    requires Convert(h, room, Some(t[i].key), {}, level - 1) == Ok(key)
    requires Convert(h, room, Some(t[i].value), {}, level - 1) == Ok(value)
    requires FromStored(h, room, t, level, i, acc)
    requires m < |Assign(acc, key, value)|
    ensures PulledFromSome(h, room, t, level, i + 1, Assign(acc, key, value)[m])
  {
    var es := Assign(acc, key, value);
    LookupFinds(es, m);
    if es[m].key == key {
      assert PulledFrom(h, room, t, level, i, es[m]);
    } else {
      assert Lookup(acc, es[m].key) == Some(es[m].value);
      LookupKeys(acc, es[m].key);
      var n :| 0 <= n < |acc| && acc[n].key == es[m].key;
      LookupFinds(acc, n);
      var e := acc[n];
      assert e == es[m];
    }
  }

  /** Entry `e` is what the stored entry `j` pulls to, with one level less and no ignore list. */
  ghost predicate PulledFrom(h: Heap, room: int, t: LTableContents, level: int, j: nat, e: Pair)
    requires Closed(h) && TableRefsIn(t, h.Keys) && j < |t|
  {
    Convert(h, room, Some(t[j].key), {}, level - 1) == Ok(e.key) &&
    Convert(h, room, Some(t[j].value), {}, level - 1) == Ok(e.value)
  }

  /** The entries before `i` hold no table, so none of their pulls can recurse. */
  ghost predicate FlatBefore(t: LTableContents, i: nat)
    requires i <= |t|
  {
    forall j :: 0 <= j < i ==> !t[j].key.LTable? && !t[j].value.LTable?
  }

  /** A traversal over entries that hold no table fails only for an exhausted budget. */
  lemma {:induction false} FlatPrefixConverts(h: Heap, room: int, t: LTableContents, ignore: set<Object>, level: int, i: nat)
    requires Closed(h) && TableRefsIn(t, h.Keys) && level > 0 && i <= |t| && FlatBefore(t, i)
    ensures var r := ConvertEntries(h, room, t, ignore, level, i);
      r.Ok? || r == Err(TableTooDeep)
  {
    if i > 0 {
      var j := i - 1;
      FlatPrefixConverts(h, room, t, ignore, level, j);
      FlatStep(h, room, t, ignore, level, j);
    }
  }

  /** A pass over an entry that holds no table keeps the traversal successful, or out of budget. */
  lemma FlatStep(h: Heap, room: int, t: LTableContents, ignore: set<Object>, level: int, i: nat)
    requires Closed(h) && TableRefsIn(t, h.Keys) && level > 0 && i < |t| && FlatBefore(t, i + 1)
    requires ConvertEntries(h, room, t, ignore, level, i).Ok? || ConvertEntries(h, room, t, ignore, level, i) == Err(TableTooDeep)
    ensures var r := ConvertEntries(h, room, t, ignore, level, i + 1);
      r.Ok? || r == Err(TableTooDeep)
  {
    assert !t[i].key.LTable? && !t[i].value.LTable?;
  }

  /**
   * A table that holds itself is refused with `table_too_deep`, whatever the
   * budget: once the traversal reaches an entry whose value is the table
   * itself, with a key that is kept and only tableless entries before it,
   * each nested pull meets the same entry one level lower until the budget
   * runs out. Enough stack room is assumed, or the overflow comes first.
   */
  lemma {:induction false} SelfReferenceTooDeep(h: Heap, room: int, r: Ref, i: nat, ignore: set<Object>, level: int)
    requires Closed(h) && r in h && i < |h[r]| && h[r][i].value == LTable(r)
    requires FlatBefore(h[r], i) && !h[r][i].key.LTable?
    requires Convert(h, room - 2, Some(h[r][i].key), {}, level - 1).Ok? ==>
      Convert(h, room - 2, Some(h[r][i].key), {}, level - 1).value !in ignore
    requires room >= 2 * level
    ensures Convert(h, room, Some(LTable(r)), ignore, level) == Err(TableTooDeep)
    decreases if level > 0 then level else 0
  {
    if level > 0 {
      SelfReferenceTooDeep(h, room - 2, r, i, {}, level - 1);
      assert TableRefsIn(h[r], h.Keys);
      NestedTooDeep(h, room - 2, h[r], r, i, ignore, level);
    }
  }

  /** A traversal fails with `table_too_deep` once it reaches a kept entry whose value is refused so. */
  lemma NestedTooDeep(h: Heap, room: int, t: LTableContents, r: Ref, i: nat, ignore: set<Object>, level: int)
    requires Closed(h) && TableRefsIn(t, h.Keys) && level > 0 && i < |t| && r in h
    requires FlatBefore(t, i) && !t[i].key.LTable? && t[i].value == LTable(r)
    requires Convert(h, room, Some(t[i].key), {}, level - 1).Ok? ==>
      Convert(h, room, Some(t[i].key), {}, level - 1).value !in ignore
    requires Convert(h, room, Some(LTable(r)), {}, level - 1) == Err(TableTooDeep)
    ensures ConvertEntries(h, room, t, ignore, level, |t|) == Err(TableTooDeep)
  {
    FlatPrefixConverts(h, room, t, ignore, level, i);
    assert ConvertEntries(h, room, t, ignore, level, i + 1) == Err(TableTooDeep);
    ErrorPersists(h, room, t, ignore, level, i + 1, |t|);
  }

  /** An instance of `IgnoreIsShallow`: the nested table keeps the key `_G` that the outer pull ignores. */
  lemma IgnoreIsShallowExample(h: Heap, r: Ref, inner: Ref)
    requires Closed(h) && r in h && inner in h && r != inner
    requires h[r] == [LPair(LString("t"), LTable(inner))]
    requires h[inner] == [LPair(LString("_G"), LBoolean(true))]
    ensures Convert(h, 8, Some(LTable(r)), {String("_G")}, 8) ==
      Ok(Table([Pair(String("t"), Table([Pair(String("_G"), Boolean(true))]))]))
    ensures Convert(h, 8, Some(LTable(inner)), {String("_G")}, 8) == Ok(Table([]))
  {
    var g := String("_G");
    assert CString("_G") == "_G" && CString("t") == "t";
    assert ConvertEntries(h, 4, h[inner], {}, 7, 1) == Ok(Assign([], g, Boolean(true)));
    assert ConvertEntries(h, 6, h[inner], {g}, 8, 1) == Ok([]);
  }
}
