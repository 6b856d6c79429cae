/**
 * `PushVar<…>` and `GetStackVar<…>` as operations on the engine: each push
 * asks for one stack slot and leaves exactly one value, and each pull reads a
 * slot, walking a table with `lua_next`, and leaves the stack as it found it.
 * Every method is proved against the functions of `MarshalSpec`.
 */
module Marshal {
  import opened Options
  import opened LuaObject
  import opened ObjectTable
  import opened LuaEngine
  import opened MarshalSpec

  /** Every table of `h` is still in `h'` with the same contents. */
  ghost predicate Extends(h: Heap, h': Heap) {
    forall x :: x in h ==> x in h' && h'[x] == h[x]
  }

  /** `internal::growStack`: `overflow_error` unless the engine grants `n` more slots. */
  method GrowStack(e: Engine, n: nat) returns (r: Result<()>)
    requires e.Valid()
    ensures r.Ok? <==> |e.stack| + n <= e.config.capacity
    ensures r.Err? ==> r.error == OverflowError
  {
    if !e.CheckStack(n) {
      return Err(OverflowError);
    }
    r := Ok(());
  }

  // Pushing

  /**
   * `PushVar<Object>`: one slot is asked for, then the value is pushed; a
   * table is built entry by entry with `lua_settable`. On success the stack
   * grew by exactly the value that encodes `o`, built only from new tables.
   * A nil key inside a table is the engine's "table index is nil" error.
   */
  method PushObject(e: Engine, o: Object) returns (r: Result<()>)
    requires e.Valid()
    modifies e
    ensures e.Valid() && Extends(old(e.heap), e.heap)
    ensures e.loaded == old(e.loaded) && e.openers == old(e.openers) && e.closed == old(e.closed)
    ensures |e.stack| >= |old(e.stack)| && e.stack[..|old(e.stack)|] == old(e.stack)
    ensures r.Ok? ==> |e.stack| == |old(e.stack)| + 1 && Encodes(e.heap, old(e.heap).Keys, e.stack[|old(e.stack)|], o)
    ensures r.Err? ==> r.error == OverflowError || r.error == LuaError("table index is nil")
    decreases o, 3
  {
    r := GrowStack(e, 1);
    if r.Err? {
      return;
    }
    match o
    case Nil => e.PushNil();
    case Number(x) => e.PushNumber(x);
    case String(s) => e.PushString(s);
    case Function(f) => e.PushCFunction(f);
    case Boolean(b) => e.PushBoolean(b);
    case Table(es) => r := NewTableFrom(e, es);
  }

  /** `lua_newtable`, then the entries stored one by one: the table part of `PushVar<Object>` and `PushVar<LuaTable>`. */
  method NewTableFrom(e: Engine, es: seq<Pair>) returns (r: Result<()>)
    requires e.Valid()
    modifies e
    ensures e.Valid() && Extends(old(e.heap), e.heap)
    ensures e.loaded == old(e.loaded) && e.openers == old(e.openers) && e.closed == old(e.closed)
    ensures |e.stack| >= |old(e.stack)| && e.stack[..|old(e.stack)|] == old(e.stack)
    ensures r.Ok? ==> |e.stack| == |old(e.stack)| + 1 && Encodes(e.heap, old(e.heap).Keys, e.stack[|old(e.stack)|], Table(es))
    ensures r.Err? ==> r.error == OverflowError || r.error == LuaError("table index is nil")
    decreases Table(es), 2
  {
    ghost var keys := e.heap.Keys;
    ghost var s0 := e.stack;
    e.NewTable();
    var t := e.stack[|e.stack| - 1].ref;
    assert e.heap.Keys == keys + {t};
    r := PushEntries(e, t, es);
    if r.Err? {
      PrefixOfPrefix(e.stack, s0 + [LTable(t)], s0);
      return;
    }
    ghost var ps: seq<LPair> :| PairsEncode(e.heap, keys + {t}, ps, es) && e.heap[t] == Build(ps);
    PairsAvoidLess(e.heap, keys, keys + {t}, ps, es);
  }

  /**
   * The loop of `PushVar<Object>` and `PushVar<LuaTable>` over a map's
   * entries, in key order, into the new table `t` on top of the stack.
   */
  method PushEntries(e: Engine, t: Ref, es: seq<Pair>) returns (r: Result<()>)
    requires e.Valid() && |e.stack| >= 1 && e.stack[|e.stack| - 1] == LTable(t) && t in e.heap && e.heap[t] == []
    modifies e
    ensures e.Valid() && t in e.heap
    ensures forall x :: x in old(e.heap) && x != t ==> x in e.heap && e.heap[x] == old(e.heap)[x]
    ensures e.loaded == old(e.loaded) && e.openers == old(e.openers) && e.closed == old(e.closed)
    ensures |e.stack| >= |old(e.stack)| && e.stack[..|old(e.stack)|] == old(e.stack)
    ensures r.Ok? ==> e.stack == old(e.stack) && EntriesEncoded(e.heap, old(e.heap).Keys, e.heap[t], es)
    ensures r.Err? ==> r.error == OverflowError || r.error == LuaError("table index is nil")
    decreases Table(es), 1
  {
    ghost var avoid := e.heap.Keys;
    ghost var s0 := e.stack;
    ghost var ps: seq<LPair> := [];
    var i := 0;
    while i < |es|
      invariant 0 <= i <= |es| && |ps| == i
      invariant e.Valid() && e.stack == s0 && t in e.heap && e.heap[t] == Build(ps)
      invariant forall x :: x in old(e.heap) && x != t ==> x in e.heap && e.heap[x] == old(e.heap)[x]
      invariant avoid <= e.heap.Keys
      invariant e.loaded == old(e.loaded) && e.openers == old(e.openers) && e.closed == old(e.closed)
      invariant PairsEncode(e.heap, avoid, ps, es[..i])
    {
      ghost var hb := e.heap;
      ghost var entry;
      r, entry := PushEntry(e, t, es[i]);
      if r.Err? {
        return;
      }
      EntryAppended(hb, e.heap, avoid, t, ps, es, i, entry);
      ps := ps + [entry];
      i := i + 1;
    }
    assert es[..i] == es;
    r := Ok(());
  }

  /**
   * One pass of the loop: `pushVar(key)`, `pushVar(value)` and
   * `lua_settable(state, -3)` into the table `t` on top of the stack.
   */
  method PushEntry(e: Engine, t: Ref, p: Pair) returns (r: Result<()>, ghost entry: LPair)
    requires e.Valid() && |e.stack| >= 1 && e.stack[|e.stack| - 1] == LTable(t) && t in e.heap
    modifies e
    ensures e.Valid() && t in e.heap
    ensures forall x :: x in old(e.heap) && x != t ==> x in e.heap && e.heap[x] == old(e.heap)[x]
    ensures e.loaded == old(e.loaded) && e.openers == old(e.openers) && e.closed == old(e.closed)
    ensures |e.stack| >= |old(e.stack)| && e.stack[..|old(e.stack)|] == old(e.stack)
    ensures r.Ok? ==> e.stack == old(e.stack) && e.heap[t] == RawSet(old(e.heap)[t], entry.key, entry.value)
    ensures r.Ok? ==> Encodes(e.heap, old(e.heap).Keys, entry.key, p.key) && Encodes(e.heap, old(e.heap).Keys, entry.value, p.value)
    ensures r.Err? ==> r.error == OverflowError || r.error == LuaError("table index is nil")
    decreases p, 0
  {
    ghost var s0 := e.stack;
    ghost var h0 := e.heap;
    entry := LPair(LNil, LNil);
    r := PushObject(e, p.key);
    if r.Err? {
      return;
    }
    var k := e.stack[|s0|];
    ghost var h1 := e.heap;
    r := PushObject(e, p.value);
    if r.Err? {
      PrefixOfPrefix(e.stack, s0 + [k], s0);
      return;
    }
    var v := e.stack[|s0| + 1];
    ghost var h2 := e.heap;
    assert e.stack == s0 + [k, v];
    r := SetEntry(e, t);
    if r.Err? {
      return;
    }
    entry := LPair(k, v);
    EntryEncoded(h0, h1, h2, e.heap, t, k, v, p);
  }

  /** `lua_settable(state, -3)` with the table `t` below the key and the value. */
  method SetEntry(e: Engine, t: Ref) returns (r: Result<()>)
    requires e.Valid() && |e.stack| >= 3 && e.stack[|e.stack| - 3] == LTable(t)
    modifies e
    ensures e.Valid() && e.nextRef == old(e.nextRef)
    ensures e.loaded == old(e.loaded) && e.openers == old(e.openers) && e.closed == old(e.closed)
    ensures r.Ok? <==> old(e.stack[|e.stack| - 2]) != LNil
    ensures r.Ok? ==> e.stack == old(e.stack[..|e.stack| - 2]) && t in old(e.heap)
    ensures r.Ok? ==> e.heap == old(e.heap)[t := RawSet(old(e.heap)[t], old(e.stack[|e.stack| - 2]), old(e.stack[|e.stack| - 1]))]
    ensures r.Err? ==> r.error == LuaError("table index is nil") && e.stack == old(e.stack) && e.heap == old(e.heap)
  {
    e.SlotRefs(-3);
    r := e.SetTable(-3);
  }

  /** The key and value pushed for one entry are still encoded once the entry is stored. */
  lemma EntryEncoded(h0: Heap, h1: Heap, h2: Heap, h3: Heap, t: Ref, k: LVal, v: LVal, p: Pair)
    requires t in h0
    requires Extends(h0, h1) && Encodes(h1, h0.Keys, k, p.key)
    requires Extends(h1, h2) && Encodes(h2, h1.Keys, v, p.value)
    requires h3 == h2[t := RawSet(h2[t], k, v)]
    ensures forall x :: x in h0 && x != t ==> x in h3 && h3[x] == h0[x]
    ensures Encodes(h3, h0.Keys, k, p.key) && Encodes(h3, h0.Keys, v, p.value)
  {
    EncodesFrame(h1, h3, h0.Keys, k, p.key);
    EncodesAvoidLess(h2, h0.Keys, h1.Keys, v, p.value);
    EncodesFrame(h2, h3, h0.Keys, v, p.value);
  }

  /** Appending the entry just stored keeps the loop's encoding of the entries so far. */
  lemma EntryAppended(hb: Heap, h: Heap, avoid: set<Ref>, t: Ref, ps: seq<LPair>, es: seq<Pair>, i: nat, entry: LPair)
    requires i < |es| && |ps| == i && t in avoid && avoid <= hb.Keys
    requires PairsEncode(hb, avoid, ps, es[..i])
    requires forall x :: x in hb && x != t ==> x in h && h[x] == hb[x]
    requires Encodes(h, hb.Keys, entry.key, es[i].key) && Encodes(h, hb.Keys, entry.value, es[i].value)
    ensures PairsEncode(h, avoid, ps + [entry], es[..i + 1])
    ensures Build(ps + [entry]) == RawSet(Build(ps), entry.key, entry.value)
  {
    PairsFrame(hb, h, avoid, ps, es[..i]);
    EncodesAvoidLess(h, avoid, hb.Keys, entry.key, es[i].key);
    EncodesAvoidLess(h, avoid, hb.Keys, entry.value, es[i].value);
    PairsSnoc(h, avoid, ps, es[..i], entry, es[i]);
    TakeSnoc(es, i);
    DropLast(ps, entry);
  }

  /** Encoded entries stay encoded when one more encoded entry is appended. */
  lemma PairsSnoc(h: Heap, avoid: set<Ref>, ps: seq<LPair>, es: seq<Pair>, p: LPair, q: Pair)
    requires PairsEncode(h, avoid, ps, es)
    requires Encodes(h, avoid, p.key, q.key) && Encodes(h, avoid, p.value, q.value)
    ensures PairsEncode(h, avoid, ps + [p], es + [q])
  {
    var ps', es' := ps + [p], es + [q];
    forall j | 0 <= j < |ps'|
      ensures Encodes(h, avoid, ps'[j].key, es'[j].key) && Encodes(h, avoid, ps'[j].value, es'[j].value)
    {
      if j < |ps| {
        assert ps'[j] == ps[j] && es'[j] == es[j];
      }
    }
  }

  lemma TakeSnoc<T>(s: seq<T>, i: nat)
    requires i < |s|
    ensures s[..i + 1] == s[..i] + [s[i]]
  {
  }

  lemma DropLast<T>(s: seq<T>, x: T)
    ensures (s + [x])[..|s|] == s
  {
  }

  /** `PushVar<LuaNumber>`. */
  method PushNumber(e: Engine, d: real) returns (r: Result<()>)
    requires e.Valid()
    modifies e
    ensures e.Valid() && e.OnlyStack()
    ensures r.Ok? <==> old(|e.stack|) + 1 <= e.config.capacity
    ensures r.Ok? ==> e.stack == old(e.stack) + [LNumber(d)]
    ensures r.Err? ==> r.error == OverflowError && e.stack == old(e.stack)
  {
    r := GrowStack(e, 1);
    if r.Ok? {
      e.PushNumber(d);
    }
  }

  /** `PushVar<LuaInteger>`: the integer goes in as a number. */
  method PushInteger(e: Engine, i: int) returns (r: Result<()>)
    requires e.Valid()
    modifies e
    ensures e.Valid() && e.OnlyStack()
    ensures r.Ok? <==> old(|e.stack|) + 1 <= e.config.capacity
    ensures r.Ok? ==> e.stack == old(e.stack) + [LNumber(i as real)]
    ensures r.Err? ==> r.error == OverflowError && e.stack == old(e.stack)
  {
    r := GrowStack(e, 1);
    if r.Ok? {
      e.PushNumber(i as real);
    }
  }

  /** `PushVar<LuaString>`: pushed through `c_str()`, so cut at the first NUL. */
  method PushString(e: Engine, s: string) returns (r: Result<()>)
    requires e.Valid()
    modifies e
    ensures e.Valid() && e.OnlyStack()
    ensures r.Ok? <==> old(|e.stack|) + 1 <= e.config.capacity
    ensures r.Ok? ==> e.stack == old(e.stack) + [LString(CString(s))]
    ensures r.Err? ==> r.error == OverflowError && e.stack == old(e.stack)
  {
    r := GrowStack(e, 1);
    if r.Ok? {
      e.PushString(s);
    }
  }

  /** `PushVar<LuaFunction>`: a C function without upvalues. */
  method PushFunction(e: Engine, f: FuncRef) returns (r: Result<()>)
    requires e.Valid()
    modifies e
    ensures e.Valid() && e.OnlyStack()
    ensures r.Ok? <==> old(|e.stack|) + 1 <= e.config.capacity
    ensures r.Ok? ==> e.stack == old(e.stack) + [LCFunction(f, [])]
    ensures r.Err? ==> r.error == OverflowError && e.stack == old(e.stack)
  {
    r := GrowStack(e, 1);
    if r.Ok? {
      e.PushCFunction(f);
    }
  }

  /** `PushVar<LuaBoolean>`. */
  method PushBoolean(e: Engine, b: bool) returns (r: Result<()>)
    requires e.Valid()
    modifies e
    ensures e.Valid() && e.OnlyStack()
    ensures r.Ok? <==> old(|e.stack|) + 1 <= e.config.capacity
    ensures r.Ok? ==> e.stack == old(e.stack) + [LBoolean(b)]
    ensures r.Err? ==> r.error == OverflowError && e.stack == old(e.stack)
  {
    r := GrowStack(e, 1);
    if r.Ok? {
      e.PushBoolean(b);
    }
  }

  /** `PushVar<LuaTable>`: the same steps as the table case of `PushVar<Object>`. */
  method PushTable(e: Engine, es: seq<Pair>) returns (r: Result<()>)
    requires e.Valid()
    modifies e
    ensures e.Valid() && Extends(old(e.heap), e.heap)
    ensures e.loaded == old(e.loaded) && e.openers == old(e.openers) && e.closed == old(e.closed)
    ensures |e.stack| >= |old(e.stack)| && e.stack[..|old(e.stack)|] == old(e.stack)
    ensures r.Ok? ==> |e.stack| == |old(e.stack)| + 1 && Encodes(e.heap, old(e.heap).Keys, e.stack[|old(e.stack)|], Table(es))
    ensures r.Err? ==> r.error == OverflowError || r.error == LuaError("table index is nil")
  {
    r := GrowStack(e, 1);
    if r.Err? {
      return;
    }
    r := NewTableFrom(e, es);
  }

  // Pulling

  /**
   * `GetStackVar<Object>`: the Object that `Convert` yields for the slot,
   * with the free stack space as room. On success the stack is as before;
   * after an error only the values below the slot's own stack are known.
   */
  method PullObject(e: Engine, index: int, ignore: set<Object>, level: int) returns (r: Result<Object>)
    requires e.Valid() && Acceptable(e.stack, index)
    modifies e
    ensures e.Valid() && e.OnlyStack()
    ensures Closed(old(e.heap)) && (old(e.Slot(index)).Some? ==> RefsIn(old(e.Slot(index)).value, old(e.heap).Keys))
    ensures r == Convert(old(e.heap), e.config.capacity - |old(e.stack)|, old(e.Slot(index)), ignore, level)
    ensures |e.stack| >= |old(e.stack)| && e.stack[..|old(e.stack)|] == old(e.stack)
    ensures r.Ok? ==> e.stack == old(e.stack)
    decreases if level > 0 then level else 0, 4
  {
    HeapOkClosed(e.heap, e.nextRef);
    if e.Slot(index).Some? {
      e.SlotRefs(index);
    }
    if level <= 0 {
      return if ThrowTableTooDeep then Err(TableTooDeep) else Ok(Nil);
    }
    var abs := AbsIndex(e.stack, index);
    match e.Slot(abs)
    case None => r := Ok(Nil);
    case Some(v) =>
      match v
      case LNil => r := Ok(Nil);
      case LNumber(n) => r := Ok(Number(n));
      case LString(s) => r := Ok(String(CString(s)));
      case LTable(t) =>
        var g := GrowStack(e, 2);
        if g.Err? {
          return Err(g.error);
        }
        var es := PullEntries(e, abs, t, ignore, level);
        r := match es
          case Ok(m) => Ok(Table(m))
          case Err(x) => Err(x);
      case LBoolean(b) => r := Ok(Boolean(b));
      case LCFunction(f, _) => r := Ok(Function(f));
      case LLuaFunction(_) => r := Ok(Function(NullFunction));
      case _ => r := Ok(Nil);
  }

  /**
   * The `while (lua_next(…))` loop of `GetStackVar<Object>` over the table
   * `t` at the absolute index `abs`: each key is pulled from -2 and each
   * value from -1 with one level less, ignored ones are popped and skipped,
   * and the others are assigned into the result map.
   */
  method PullEntries(e: Engine, abs: int, t: Ref, ignore: set<Object>, level: int) returns (r: Result<seq<Pair>>)
    requires e.Valid() && level > 0 && 0 < abs <= |e.stack| && e.stack[abs - 1] == LTable(t)
    requires |e.stack| + 2 <= e.config.capacity
    modifies e
    ensures e.Valid() && e.OnlyStack()
    ensures Closed(old(e.heap)) && t in old(e.heap) && TableRefsIn(old(e.heap)[t], old(e.heap).Keys)
    ensures r == ConvertEntries(old(e.heap), e.config.capacity - |old(e.stack)| - 2, old(e.heap)[t], ignore, level, |old(e.heap)[t]|)
    ensures |e.stack| >= |old(e.stack)| && e.stack[..|old(e.stack)|] == old(e.stack)
    ensures r.Ok? ==> e.stack == old(e.stack)
    decreases level, 3
  {
    HeapOkClosed(e.heap, e.nextRef);
    e.SlotRefs(abs);
    ghost var h := e.heap;
    ghost var s0 := e.stack;
    ghost var room := e.config.capacity - |s0| - 2;
    var tab := e.heap[t];
    var more := Start(e, abs, t);
    r := PullRemaining(e, abs, t, ignore, level, h, s0, room, tab, more);
  }

  /**
   * The loop itself, entered after the first `lua_next`: while an entry is
   * on the stack, it is pulled and the traversal advances.
   */
  method PullRemaining(e: Engine, abs: int, t: Ref, ignore: set<Object>, level: int,
                       ghost h: Heap, ghost s0: seq<LVal>, ghost room: int, ghost tab: LTableContents, more0: bool)
    returns (r: Result<seq<Pair>>)
    requires e.Valid() && level > 0 && h == e.heap && Closed(h) && t in h && tab == h[t] && TableRefsIn(tab, h.Keys)
    requires 0 < abs <= |s0| && s0[abs - 1] == LTable(t) && room == e.config.capacity - |s0| - 2
    requires more0 ==> 0 < |tab| && e.stack == s0 + [tab[0].key, tab[0].value]
    requires !more0 ==> |tab| == 0 && e.stack == s0
    modifies e
    ensures e.Valid() && e.OnlyStack()
    ensures r == ConvertEntries(h, room, tab, ignore, level, |tab|)
    ensures |e.stack| >= |s0| && e.stack[..|s0|] == s0
    ensures r.Ok? ==> e.stack == s0
    decreases level, 2
  {
    var more := more0;
    var acc: seq<Pair> := [];
    var i := 0;
    while more
      invariant e.Valid() && e.heap == h && e.nextRef == old(e.nextRef)
      invariant e.loaded == old(e.loaded) && e.openers == old(e.openers) && e.closed == old(e.closed)
      invariant i <= |tab| && ConvertEntries(h, room, tab, ignore, level, i) == Ok(acc)
      invariant more ==> i < |tab| && e.stack == s0 + [tab[i].key, tab[i].value]
      invariant !more ==> i == |tab| && e.stack == s0
      decreases |tab| - i
    {
      var step;
      step, more := PullStep(e, abs, t, ignore, level, h, s0, room, tab, i, acc);
      if step.Err? {
        return step;
      }
      acc := step.value;
      i := i + 1;
    }
    r := Ok(acc);
  }

  /** One turn of the traversal loop: the entry at `i` is pulled, then the traversal moves past it. */
  method PullStep(e: Engine, abs: int, t: Ref, ignore: set<Object>, level: int,
                  ghost h: Heap, ghost s0: seq<LVal>, ghost room: int, ghost tab: LTableContents, i: nat, acc: seq<Pair>)
    returns (r: Result<seq<Pair>>, more: bool)
    requires e.Valid() && level > 0 && h == e.heap && Closed(h) && t in h && tab == h[t] && TableRefsIn(tab, h.Keys)
    requires 0 < abs <= |s0| && s0[abs - 1] == LTable(t) && room == e.config.capacity - |s0| - 2
    requires i < |tab| && e.stack == s0 + [tab[i].key, tab[i].value]
    requires ConvertEntries(h, room, tab, ignore, level, i) == Ok(acc)
    modifies e
    ensures e.Valid() && e.OnlyStack()
    ensures r.Err? ==> r == ConvertEntries(h, room, tab, ignore, level, |tab|) && |e.stack| >= |s0| && e.stack[..|s0|] == s0
    ensures r.Ok? ==> r == ConvertEntries(h, room, tab, ignore, level, i + 1)
    ensures r.Ok? && more ==> i + 1 < |tab| && e.stack == s0 + [tab[i + 1].key, tab[i + 1].value]
    ensures r.Ok? && !more ==> i + 1 == |tab| && e.stack == s0
    decreases level, 1
  {
    r := PullEntry(e, t, ignore, level, s0, h, room, tab, i, acc);
    if r.Err? {
      ErrorPersists(h, room, tab, ignore, level, i + 1, |tab|);
      more := false;
    } else {
      more := Advance(e, abs, t, tab, s0, i);
    }
  }

  /**
   * One pass of the traversal loop, with the entry at `i` on top of the
   * stack: the key is pulled from -2 and, unless ignored, the value from -1,
   * both with one level less and no ignore list.
   */
  method PullEntry(e: Engine, t: Ref, ignore: set<Object>, level: int, ghost s0: seq<LVal>,
                   ghost h: Heap, ghost room: int, ghost tab: LTableContents, i: nat, acc: seq<Pair>)
    returns (r: Result<seq<Pair>>)
    requires e.Valid() && level > 0 && h == e.heap && t in h && tab == h[t] && i < |tab|
    requires room == e.config.capacity - |s0| - 2 && e.stack == s0 + [tab[i].key, tab[i].value]
    requires Closed(h) && TableRefsIn(tab, h.Keys)
    requires ConvertEntries(h, room, tab, ignore, level, i) == Ok(acc)
    modifies e
    ensures e.Valid() && e.OnlyStack()
    ensures r == ConvertEntries(h, room, tab, ignore, level, i + 1)
    ensures |e.stack| >= |s0| && e.stack[..|s0|] == s0
    ensures r.Ok? ==> e.stack == old(e.stack)
    decreases level, 0, 1
  {
    assert e.Slot(-2) == Some(tab[i].key) && e.Slot(-1) == Some(tab[i].value);
    var key := PullObject(e, -2, {}, level - 1);
    assert key == Convert(h, room, Some(tab[i].key), {}, level - 1);
    if key.Err? {
      PrefixOfPrefix(e.stack, old(e.stack), s0);
      r := Err(key.error);
    } else if key.value in ignore {
      r := Ok(acc);
    } else {
      r := PullValue(e, ignore, level, s0, h, room, tab, i, acc, key.value);
    }
  }

  /** The second half of a traversal pass: the value at -1 is pulled unless the key was ignored. */
  method PullValue(e: Engine, ignore: set<Object>, level: int, ghost s0: seq<LVal>,
                   ghost h: Heap, ghost room: int, ghost tab: LTableContents, i: nat, acc: seq<Pair>, key: Object)
    returns (r: Result<seq<Pair>>)
    requires e.Valid() && level > 0 && h == e.heap && Closed(h) && TableRefsIn(tab, h.Keys) && i < |tab|
    requires room == e.config.capacity - |s0| - 2 && e.stack == s0 + [tab[i].key, tab[i].value]
    requires ConvertEntries(h, room, tab, ignore, level, i) == Ok(acc)
    requires Convert(h, room, Some(tab[i].key), {}, level - 1) == Ok(key) && key !in ignore
    modifies e
    ensures e.Valid() && e.OnlyStack()
    ensures r == ConvertEntries(h, room, tab, ignore, level, i + 1)
    ensures |e.stack| >= |s0| && e.stack[..|s0|] == s0
    ensures r.Ok? ==> e.stack == old(e.stack)
    decreases level, 0, 0
  {
    ghost var stack := e.stack;
    LastOfAppend(s0, [tab[i].key, tab[i].value], stack);
    var value := PullTop(e, {}, level - 1, h, stack);
    if value.Err? {
      PrefixOfPrefix(e.stack, stack, s0);
    }
    r := if value.Err? then Err(value.error) else if value.value in ignore then Ok(acc) else Ok(Assign(acc, key, value.value));
    ValueStep(h, room, tab, ignore, level, i, acc, key, value);
  }

  /** One traversal pass whose key was kept ends as its value decides. */
  lemma ValueStep(h: Heap, room: int, tab: LTableContents, ignore: set<Object>, level: int, i: nat,
                  acc: seq<Pair>, key: Object, value: Result<Object>)
    requires Closed(h) && TableRefsIn(tab, h.Keys) && level > 0 && i < |tab|
    requires ConvertEntries(h, room, tab, ignore, level, i) == Ok(acc)
    requires Convert(h, room, Some(tab[i].key), {}, level - 1) == Ok(key) && key !in ignore
    requires value == Convert(h, room, Some(tab[i].value), {}, level - 1)
    ensures ConvertEntries(h, room, tab, ignore, level, i + 1) ==
      if value.Err? then Err(value.error) else if value.value in ignore then Ok(acc) else Ok(Assign(acc, key, value.value))
  {
  }

  lemma LastOfAppend<T>(a: seq<T>, b: seq<T>, ab: seq<T>)
    requires |b| >= 1 && ab == a + b
    ensures |ab| == |a| + |b| && ab[|ab| - 1] == b[|b| - 1]
  {
  }

  /** `GetStackVar<Object>(-1)`, stated for a given heap and stack. */
  method PullTop(e: Engine, ignore: set<Object>, level: int, ghost h: Heap, ghost stack: seq<LVal>) returns (r: Result<Object>)
    requires e.Valid() && h == e.heap && stack == e.stack && |stack| >= 1
    modifies e
    ensures e.Valid() && e.OnlyStack() && Closed(h) && AllRefsIn(stack, h.Keys)
    ensures r == Convert(h, e.config.capacity - |stack|, Some(stack[|stack| - 1]), ignore, level)
    ensures |e.stack| >= |stack| && e.stack[..|stack|] == stack
    ensures r.Ok? ==> e.stack == stack
    decreases if level > 0 then level else 0, 5
  {
    r := PullObject(e, -1, ignore, level);
  }

  lemma PrefixOfPrefix<T>(a: seq<T>, b: seq<T>, c: seq<T>)
    requires |a| >= |b| && a[..|b|] == b && |b| >= |c| && b[..|c|] == c
    ensures |a| >= |c| && a[..|c|] == c
  {
    assert a[..|c|] == a[..|b|][..|c|];
  }

  /** `lua_pushnil` then `lua_next`: the first entry of the table, if any. */
  method Start(e: Engine, abs: int, t: Ref) returns (more: bool)
    requires e.Valid() && 0 < abs <= |e.stack| && e.stack[abs - 1] == LTable(t)
    modifies e
    ensures e.Valid() && e.OnlyStack() && t in e.heap
    ensures more <==> 0 < |e.heap[t]|
    ensures more ==> e.stack == old(e.stack) + [e.heap[t][0].key, e.heap[t][0].value]
    ensures !more ==> e.stack == old(e.stack)
  {
    e.SlotRefs(abs);
    e.PushNil();
    more := e.Next(abs);
  }

  /** `lua_pop(state, 1)` then `lua_next`: from the entry at `i` to the one after it, if any. */
  method Advance(e: Engine, abs: int, t: Ref, ghost tab: LTableContents, ghost s0: seq<LVal>, i: nat) returns (more: bool)
    requires e.Valid() && 0 < abs <= |s0| && s0[abs - 1] == LTable(t) && t in e.heap && tab == e.heap[t] && i < |tab|
    requires e.stack == s0 + [tab[i].key, tab[i].value]
    modifies e
    ensures e.Valid() && e.OnlyStack()
    ensures more <==> i + 1 < |tab|
    ensures more ==> e.stack == s0 + [tab[i + 1].key, tab[i + 1].value]
    ensures !more ==> e.stack == s0
  {
    e.Pop(1);
    assert e.stack == s0 + [tab[i].key] && e.Slot(abs) == Some(LTable(t));
    FindKeyUnique(tab, i);
    more := e.Next(abs);
  }

  /** `GetStackVar<LuaString>`: `lua_isstring`, then `lua_tostring`, which rewrites a number slot as its text. */
  method PullStringAt(e: Engine, index: int) returns (r: Result<string>)
    requires e.Valid() && Acceptable(e.stack, index)
    modifies e
    ensures e.Valid() && e.OnlyStack()
    ensures r == PullString(e.config.coercion, old(e.Slot(index)))
    ensures e.stack == (match old(e.Slot(index))
                         case Some(LNumber(n)) =>
                           old(e.stack[StackPos(e.stack, index) := LString(e.config.coercion.toText(n))])
                         case _ => old(e.stack))
  {
    var slot := e.Slot(index);
    if !(slot.Some? && (slot.value.LString? || slot.value.LNumber?)) {
      return Err(TypeMismatch);
    }
    var s := e.ToString(index);
    r := Ok(CString(s.value));
  }

  /** `GetStackVar<LuaTable>`: the Object pull with an empty ignore list, then `getTable()`. */
  method PullTableAt(e: Engine, index: int, level: int) returns (r: Result<seq<Pair>>)
    requires e.Valid() && Acceptable(e.stack, index)
    modifies e
    ensures e.Valid() && e.OnlyStack()
    ensures Closed(old(e.heap)) && (old(e.Slot(index)).Some? ==> RefsIn(old(e.Slot(index)).value, old(e.heap).Keys))
    ensures r == match Convert(old(e.heap), e.config.capacity - |old(e.stack)|, old(e.Slot(index)), {}, level)
                 case Ok(o) => o.GetTable()
                 case Err(x) => Err(x)
    ensures r.Ok? ==> e.stack == old(e.stack)
  {
    var o := PullObject(e, index, {}, level);
    r := match o
      case Ok(x) => x.GetTable()
      case Err(x) => Err(x);
  }
}
