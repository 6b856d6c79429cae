/**
 * The part of the embedded Lua 5.2 engine that the wrapper drives through the
 * C API: a value stack, a heap of tables, the global table, the registry's
 * table of loaded modules, and the API calls the wrapper makes. The compiler
 * and interpreter behind `lua_load` and `lua_pcall`, number/string coercion
 * and the stack capacity are opaque parts of the engine's configuration.
 */
module LuaEngine {
  import opened Options
  import opened LuaObject

  /** Identity of a table in the engine's heap. */
  type Ref = nat

  /** A value on the engine's stack or inside one of its tables. */
  datatype LVal =
    | LNil
    | LBoolean(b: bool)
    | LNumber(n: real)
    | LString(s: string)
    | LTable(ref: Ref)
      /** A C function, with the upvalues of its closure. */
    | LCFunction(f: FuncRef, upvalues: seq<LVal>)
    | LLuaFunction(id: nat)
    | LUserdata(id: nat)
    | LLightUserdata(p: nat)
    | LThread(id: nat)

  datatype LPair = LPair(key: LVal, value: LVal)

  /** Table contents in the order `lua_next` visits them. */
  type LTableContents = seq<LPair>

  type Heap = map<Ref, LTableContents>

  /** `lua_pushstring` and `std::string(const char*)` read a C string only up to its first NUL. */
  function CString(s: string): (r: string)
    ensures '\0' !in r
    ensures r <= s
    ensures '\0' !in s ==> r == s
  {
    if |s| == 0 || s[0] == '\0' then "" else [s[0]] + CString(s[1..])
  }

  // Raw table access (metatables are not modelled)

  function RawGet(t: LTableContents, k: LVal): LVal {
    if t == [] then LNil
    else if t[0].key == k then t[0].value
    else RawGet(t[1..], k)
  }

  /** Assignment of a value to a key; assigning nil removes the key. */
  function RawSet(t: LTableContents, k: LVal, v: LVal): LTableContents {
    if t == [] then (if v == LNil then [] else [LPair(k, v)])
    else if t[0].key == k then (if v == LNil then t[1..] else [LPair(k, v)] + t[1..])
    else [t[0]] + RawSet(t[1..], k, v)
  }

  /** Keys are distinct and not nil; values are not nil. */
  ghost predicate ValidTable(t: LTableContents) {
    (forall i, j :: 0 <= i < j < |t| ==> t[i].key != t[j].key) &&
    (forall i :: 0 <= i < |t| ==> t[i].key != LNil && t[i].value != LNil)
  }

  lemma {:induction false} RawSetValid(t: LTableContents, k: LVal, v: LVal)
    requires ValidTable(t) && k != LNil
    ensures ValidTable(RawSet(t, k, v))
    ensures forall i :: 0 <= i < |RawSet(t, k, v)| ==> RawSet(t, k, v)[i] in t || RawSet(t, k, v)[i] == LPair(k, v)
  {
    if t != [] && t[0].key != k {
      RawSetValid(t[1..], k, v);
      var rest := RawSet(t[1..], k, v);
      var r := [t[0]] + rest;
      forall i, j | 0 <= i < j < |r| ensures r[i].key != r[j].key {
        if i == 0 {
          assert r[j] == rest[j - 1];
          if rest[j - 1] in t[1..] {
            var m :| 0 <= m < |t[1..]| && t[1..][m] == rest[j - 1];
            assert t[m + 1] == rest[j - 1];
          }
        }
      }
      forall i | 0 <= i < |r| ensures r[i] in t || r[i] == LPair(k, v) {
        if i > 0 {
          assert r[i] == rest[i - 1];
          if rest[i - 1] in t[1..] {
            var m :| 0 <= m < |t[1..]| && t[1..][m] == rest[i - 1];
            assert t[m + 1] == rest[i - 1];
          }
        }
      }
    } else if t != [] {
      forall i | 0 <= i < |RawSet(t, k, v)| ensures RawSet(t, k, v)[i] in t || RawSet(t, k, v)[i] == LPair(k, v) {
        if v == LNil {
          assert t[1..][i] == t[i + 1];
        } else if i > 0 {
          assert t[1..][i - 1] == t[i];
        }
      }
    }
  }

  lemma {:induction false} RawSetRefs(t: LTableContents, k: LVal, v: LVal, keys: set<Ref>)
    requires TableRefsIn(t, keys) && RefsIn(k, keys) && RefsIn(v, keys)
    ensures TableRefsIn(RawSet(t, k, v), keys)
  {
    if t != [] {
      assert TableRefsIn(t[1..], keys) by {
        forall i | 0 <= i < |t[1..]| ensures RefsIn(t[1..][i].key, keys) && RefsIn(t[1..][i].value, keys) {
          assert t[1..][i] == t[i + 1];
        }
      }
      RawSetRefs(t[1..], k, v, keys);
      var rest := RawSet(t[1..], k, v);
      if t[0].key != k {
        forall i | 0 <= i < |[t[0]] + rest| ensures RefsIn(([t[0]] + rest)[i].key, keys) && RefsIn(([t[0]] + rest)[i].value, keys) {
          if i > 0 {
            assert ([t[0]] + rest)[i] == rest[i - 1];
          }
        }
      }
    }
  }

  lemma {:induction false} RawSetGet(t: LTableContents, k: LVal, v: LVal)
    requires ValidTable(t)
    ensures RawGet(RawSet(t, k, v), k) == v
    ensures forall j :: j != k ==> RawGet(RawSet(t, k, v), j) == RawGet(t, j)
  {
    if t != [] {
      assert ValidTable(t[1..]) by {
        forall i, j | 0 <= i < j < |t[1..]| ensures t[1..][i].key != t[1..][j].key {
          assert t[1..][i] == t[i + 1] && t[1..][j] == t[j + 1];
        }
      }
      RawSetGet(t[1..], k, v);
      if t[0].key == k {
        RawGetAbsent(t[1..], k);
      }
    }
  }

  lemma {:induction false} RawGetAbsent(t: LTableContents, k: LVal)
    requires forall i :: 0 <= i < |t| ==> t[i].key != k
    ensures RawGet(t, k) == LNil
  {
    if t != [] {
      RawGetAbsent(t[1..], k);
    }
  }

  /** Position of a key in a table's traversal order. */
  function FindKey(t: LTableContents, k: LVal): (pos: Option<nat>)
    ensures pos.Some? ==> pos.value < |t| && t[pos.value].key == k
    ensures pos.None? ==> forall i :: 0 <= i < |t| ==> t[i].key != k
  {
    if t == [] then None
    else if t[0].key == k then Some(0)
    else match FindKey(t[1..], k)
      case None => None
      case Some(p) => Some(p + 1)
  }

  lemma FindKeyUnique(t: LTableContents, i: nat)
    requires ValidTable(t) && i < |t|
    ensures FindKey(t, t[i].key) == Some(i)
  {
  }

  // References stay inside the heap

  ghost predicate RefsIn(v: LVal, keys: set<Ref>) {
    match v
    case LTable(r) => r in keys
    case LCFunction(_, ups) => forall i :: 0 <= i < |ups| ==> RefsIn(ups[i], keys)
    case _ => true
  }

  lemma {:induction false} RefsInGrow(v: LVal, keys: set<Ref>, keys': set<Ref>)
    requires RefsIn(v, keys) && keys <= keys'
    ensures RefsIn(v, keys')
  {
    match v
    case LCFunction(_, ups) =>
      forall i | 0 <= i < |ups| ensures RefsIn(ups[i], keys') {
        RefsInGrow(ups[i], keys, keys');
      }
    case _ =>
  }

  ghost predicate AllRefsIn(vs: seq<LVal>, keys: set<Ref>) {
    forall i :: 0 <= i < |vs| ==> RefsIn(vs[i], keys)
  }

  lemma AllRefsInPrefix(vs: seq<LVal>, keys: set<Ref>, n: nat)
    requires AllRefsIn(vs, keys) && n <= |vs|
    ensures AllRefsIn(vs[..n], keys)
  {
    forall i | 0 <= i < n ensures RefsIn(vs[..n][i], keys) {
      assert vs[..n][i] == vs[i];
    }
  }

  lemma AllRefsInGrow(vs: seq<LVal>, keys: set<Ref>, keys': set<Ref>)
    requires AllRefsIn(vs, keys) && keys <= keys'
    ensures AllRefsIn(vs, keys')
  {
    forall i | 0 <= i < |vs| ensures RefsIn(vs[i], keys') {
      RefsInGrow(vs[i], keys, keys');
    }
  }

  /** Every table is valid, refers only to tables of the heap, and lies below the allocation mark. */
  ghost predicate HeapOk(h: Heap, next: Ref) {
    forall r :: r in h ==> r < next && ValidTable(h[r]) && TableRefsIn(h[r], h.Keys)
  }

  ghost predicate TableRefsIn(t: LTableContents, keys: set<Ref>) {
    forall i :: 0 <= i < |t| ==> RefsIn(t[i].key, keys) && RefsIn(t[i].value, keys)
  }

  lemma TableRefsInGrow(t: LTableContents, keys: set<Ref>, keys': set<Ref>)
    requires TableRefsIn(t, keys) && keys <= keys'
    ensures TableRefsIn(t, keys')
  {
    forall i | 0 <= i < |t| ensures RefsIn(t[i].key, keys') && RefsIn(t[i].value, keys') {
      RefsInGrow(t[i].key, keys, keys');
      RefsInGrow(t[i].value, keys, keys');
    }
  }

  /** The number/string coercions of `lua_isnumber`, `lua_tonumber` and `lua_tostring`. */
  datatype Coercion = Coercion(toNumber: string -> Option<real>, toText: real -> string)

  datatype LoadOutcome = Loaded(chunk: nat) | LoadFailed(message: string)

  /** What a protected call leaves behind: the new heap and allocation mark, and its results or error value. */
  datatype CallOutcome =
    | Finished(heap: Heap, next: Ref, results: seq<LVal>)
    | Failed(heap: Heap, next: Ref, error: LVal)

  datatype Config = Config(
    /** How many stack slots `lua_checkstack` grants in all. */
    capacity: nat,
    coercion: Coercion,
    /** The compiler: chunk text, chunk name and mode to a function or a message. */
    compile: (string, string, string) -> LoadOutcome,
    /** The interpreter: runs a function value on arguments, in a protected call. */
    interpret: (Heap, Ref, LVal, seq<LVal>) -> CallOutcome)

  /** A protected call keeps every table it was given and leaves a consistent heap behind. */
  ghost predicate WellBehaved(c: Config) {
    forall h: Heap, next: Ref, f: LVal, args: seq<LVal> {:trigger c.interpret(h, next, f, args)} ::
      HeapOk(h, next) ==>
        var out := c.interpret(h, next, f, args);
        HeapOk(out.heap, out.next) && h.Keys <= out.heap.Keys &&
        (if out.Finished? then AllRefsIn(out.results, out.heap.Keys) else RefsIn(out.error, out.heap.Keys))
  }

  /** Stack indexing: the slot an index names, or None past the top. */
  function SlotOf(stack: seq<LVal>, index: int): Option<LVal> {
    if 0 < index <= |stack| then Some(stack[index - 1])
    else if -|stack| <= index < 0 then Some(stack[|stack| + index])
    else None
  }

  /** An index the API accepts: any positive index, or a negative one within the stack. */
  predicate Acceptable(stack: seq<LVal>, index: int) {
    index > 0 || (index < 0 && -index <= |stack|)
  }

  /** `lua_absindex`. */
  function AbsIndex(stack: seq<LVal>, index: int): (a: int)
    requires Acceptable(stack, index)
    ensures a > 0 && SlotOf(stack, a) == SlotOf(stack, index)
  {
    if index > 0 then index else |stack| + index + 1
  }

  class Engine {
    var stack: seq<LVal>
    var heap: Heap
    /** Allocation mark: every table in the heap lies below it. */
    var nextRef: Ref
    /** The registry's table of loaded modules (`package.loaded`). */
    var loaded: map<string, LVal>
    /** The library openers run so far, in order. */
    var openers: seq<FuncRef>
    var closed: bool
    const globals: Ref
    const config: Config

    ghost predicate Valid()
      reads this
    {
      HeapOk(heap, nextRef) && globals in heap && AllRefsIn(stack, heap.Keys) &&
      WellBehaved(config)
    }

    /** Only the stack changed. */
    twostate predicate OnlyStack()
      reads this
    {
      heap == old(heap) && nextRef == old(nextRef) && loaded == old(loaded) &&
      openers == old(openers) && closed == old(closed)
    }

    /** `luaL_newstate`: an empty stack and an empty global table. */
    constructor (config: Config)
      requires WellBehaved(config)
      ensures Valid() && fresh(this)
      ensures stack == [] && heap == map[0 := []] && globals == 0 && nextRef == 1
      ensures loaded == map[] && openers == [] && !closed && this.config == config
    {
      stack := [];
      heap := map[0 := []];
      nextRef := 1;
      loaded := map[];
      openers := [];
      closed := false;
      globals := 0;
      this.config := config;
    }

    function Slot(index: int): Option<LVal>
      reads this
    {
      SlotOf(stack, index)
    }

    /** `lua_checkstack`: whether `n` more slots can be had. */
    function CheckStack(n: nat): bool
      reads this
    {
      |stack| + n <= config.capacity
    }

    /** `lua_close`. */
    method Close()
      modifies this
      ensures closed && stack == old(stack) && heap == old(heap) && nextRef == old(nextRef)
      ensures loaded == old(loaded) && openers == old(openers)
    {
      closed := true;
    }

    method Push(v: LVal)
      requires Valid() && RefsIn(v, heap.Keys)
      modifies this
      ensures Valid() && OnlyStack() && stack == old(stack) + [v]
    {
      stack := stack + [v];
    }

    method PushNil()
      requires Valid()
      modifies this
      ensures Valid() && OnlyStack() && stack == old(stack) + [LNil]
    {
      Push(LNil);
    }

    method PushNumber(n: real)
      requires Valid()
      modifies this
      ensures Valid() && OnlyStack() && stack == old(stack) + [LNumber(n)]
    {
      Push(LNumber(n));
    }

    method PushBoolean(b: bool)
      requires Valid()
      modifies this
      ensures Valid() && OnlyStack() && stack == old(stack) + [LBoolean(b)]
    {
      Push(LBoolean(b));
    }

    /** `lua_pushstring` of a `c_str()`: the string is cut at its first NUL. */
    method PushString(s: string)
      requires Valid()
      modifies this
      ensures Valid() && OnlyStack() && stack == old(stack) + [LString(CString(s))]
    {
      Push(LString(CString(s)));
    }

    method PushLightUserdata(p: nat)
      requires Valid()
      modifies this
      ensures Valid() && OnlyStack() && stack == old(stack) + [LLightUserdata(p)]
    {
      Push(LLightUserdata(p));
    }

    /** `lua_pushcclosure`: the top `n` values become the closure's upvalues. */
    method PushCClosure(f: FuncRef, n: nat)
      requires Valid() && n <= |stack|
      modifies this
      ensures Valid() && OnlyStack()
      ensures stack == old(stack[..|stack| - n]) + [LCFunction(f, old(stack[|stack| - n..]))]
    {
      var ups := stack[|stack| - n..];
      assert forall i :: 0 <= i < |ups| ==> ups[i] == stack[|stack| - n + i];
      stack := stack[..|stack| - n];
      Push(LCFunction(f, ups));
    }

    /** `lua_pushcfunction`: a closure without upvalues. */
    method PushCFunction(f: FuncRef)
      requires Valid()
      modifies this
      ensures Valid() && OnlyStack() && stack == old(stack) + [LCFunction(f, [])]
    {
      Push(LCFunction(f, []));
    }

    /** `lua_newtable`: a fresh empty table on top of the stack. */
    method NewTable()
      requires Valid()
      modifies this
      ensures Valid() && old(nextRef) !in old(heap)
      ensures stack == old(stack) + [LTable(old(nextRef))]
      ensures heap == old(heap)[old(nextRef) := []] && nextRef == old(nextRef) + 1
      ensures loaded == old(loaded) && openers == old(openers) && closed == old(closed)
    {
      var r := nextRef;
      var keys := heap.Keys;
      heap := heap[r := []];
      nextRef := nextRef + 1;
      forall x | x in heap ensures x < nextRef && ValidTable(heap[x]) && TableRefsIn(heap[x], heap.Keys) {
        if x != r {
          TableRefsInGrow(heap[x], keys, heap.Keys);
        }
      }
      AllRefsInGrow(stack, keys, heap.Keys);
      stack := stack + [LTable(r)];
    }

    /** Stores `v` under `k` in the heap table `t`. */
    method Store(t: Ref, k: LVal, v: LVal)
      requires Valid() && t in heap && k != LNil && RefsIn(k, heap.Keys) && RefsIn(v, heap.Keys)
      modifies this
      ensures Valid() && heap == old(heap[t := RawSet(heap[t], k, v)]) && stack == old(stack)
      ensures nextRef == old(nextRef) && loaded == old(loaded) && openers == old(openers) && closed == old(closed)
    {
      var keys := heap.Keys;
      var nt := RawSet(heap[t], k, v);
      RawSetValid(heap[t], k, v);
      RawSetRefs(heap[t], k, v, keys);
      heap := heap[t := nt];
      assert heap.Keys == keys;
    }

    lemma SlotRefs(index: int)
      requires Valid() && Slot(index).Some?
      ensures RefsIn(Slot(index).value, heap.Keys)
    {
      var i := if index > 0 then index - 1 else |stack| + index;
      assert stack[i] == Slot(index).value;
    }

    /** `lua_settable`: `t[k] = v` for the table `t` at `index`, `k` and `v` the top two values, which are popped. */
    method SetTable(index: int) returns (r: Result<()>)
      requires Valid() && |stack| >= 2 && Acceptable(stack, index)
      modifies this
      ensures Valid()
      ensures r.Ok? <==> old(Slot(index)).Some? && old(Slot(index)).value.LTable? && old(stack[|stack| - 2]) != LNil
      ensures r.Ok? ==>
        var t := old(Slot(index)).value.ref;
        stack == old(stack[..|stack| - 2]) &&
        heap == old(heap[t := RawSet(heap[t], stack[|stack| - 2], stack[|stack| - 1])])
      ensures r.Err? ==> stack == old(stack) && heap == old(heap)
      ensures r.Err? ==> r.error == LuaError(if old(Slot(index)).Some? && old(Slot(index)).value.LTable?
                                             then "table index is nil" else "attempt to index a non-table value")
      ensures nextRef == old(nextRef) && loaded == old(loaded) && openers == old(openers) && closed == old(closed)
    {
      var slot := Slot(index);
      if !(slot.Some? && slot.value.LTable?) {
        return Err(LuaError("attempt to index a non-table value"));
      }
      var k, v := stack[|stack| - 2], stack[|stack| - 1];
      if k == LNil {
        return Err(LuaError("table index is nil"));
      }
      SlotRefs(index);
      Store(slot.value.ref, k, v);
      stack := stack[..|stack| - 2];
      r := Ok(());
    }

    /** `lua_getfield`: pushes `t[name]` for the table `t` at `index`. */
    method GetField(index: int, name: string) returns (r: Result<()>)
      requires Valid() && Acceptable(stack, index)
      modifies this
      ensures Valid() && OnlyStack()
      ensures r.Ok? <==> old(Slot(index)).Some? && old(Slot(index)).value.LTable?
      ensures r.Ok? ==> stack == old(stack) + [RawGet(heap[old(Slot(index)).value.ref], LString(CString(name)))]
      ensures r.Err? ==> stack == old(stack) && r.error == LuaError("attempt to index a non-table value")
    {
      var slot := Slot(index);
      if !(slot.Some? && slot.value.LTable?) {
        return Err(LuaError("attempt to index a non-table value"));
      }
      SlotRefs(index);
      var t := slot.value.ref;
      RawGetRefs(heap[t], LString(CString(name)), heap.Keys);
      Push(RawGet(heap[t], LString(CString(name))));
      r := Ok(());
    }

    /** `lua_getglobal`. */
    method GetGlobal(name: string)
      requires Valid()
      modifies this
      ensures Valid() && OnlyStack()
      ensures stack == old(stack) + [RawGet(heap[globals], LString(CString(name)))]
    {
      RawGetRefs(heap[globals], LString(CString(name)), heap.Keys);
      Push(RawGet(heap[globals], LString(CString(name))));
    }

    /** `lua_setglobal`: pops the top value into the global `name`. */
    method SetGlobal(name: string)
      requires Valid() && |stack| >= 1
      modifies this
      ensures Valid()
      ensures stack == old(stack[..|stack| - 1])
      ensures heap == old(heap[globals := RawSet(heap[globals], LString(CString(name)), stack[|stack| - 1])])
      ensures nextRef == old(nextRef) && loaded == old(loaded) && openers == old(openers) && closed == old(closed)
    {
      Store(globals, LString(CString(name)), stack[|stack| - 1]);
      stack := stack[..|stack| - 1];
    }

    /**
     * `lua_next`: pops a key of the table at `index` (nil to start) and pushes
     * the next entry's key and value, if there is one.
     */
    method Next(index: int) returns (more: bool)
      requires Valid() && |stack| >= 1 && Acceptable(stack, index)
      requires Slot(index).Some? && Slot(index).value.LTable?
      requires var t := heap[Slot(index).value.ref];
        stack[|stack| - 1] == LNil || FindKey(t, stack[|stack| - 1]).Some?
      modifies this
      ensures Valid() && OnlyStack()
      ensures
        var t := heap[old(Slot(index)).value.ref];
        var k := old(stack[|stack| - 1]);
        var pos := if k == LNil then 0 else FindKey(t, k).value + 1;
        (more <==> pos < |t|) &&
        stack == old(stack[..|stack| - 1]) + (if more then [t[pos].key, t[pos].value] else [])
    {
      SlotRefs(index);
      var t := heap[Slot(index).value.ref];
      var k := stack[|stack| - 1];
      var pos := if k == LNil then 0 else FindKey(t, k).value + 1;
      stack := stack[..|stack| - 1];
      if pos < |t| {
        more := true;
        Push(t[pos].key);
        Push(t[pos].value);
      } else {
        more := false;
      }
    }

    /** `lua_settop`: a non-negative index sets the height, filling with nil; a negative one drops values. */
    method SetTop(index: int)
      requires Valid() && (index >= 0 || -index <= |stack| + 1)
      modifies this
      ensures Valid() && OnlyStack()
      ensures var n := if index >= 0 then index else |old(stack)| + index + 1;
        |stack| == n &&
        (forall i :: 0 <= i < n ==> stack[i] == if i < |old(stack)| then old(stack[i]) else LNil)
    {
      var n := if index >= 0 then index else |stack| + index + 1;
      if n <= |stack| {
        stack := stack[..n];
      } else {
        var fill := seq(n - |stack|, _ => LNil);
        stack := stack + fill;
      }
    }

    /** `lua_pop`. */
    method Pop(n: nat)
      requires Valid() && n <= |stack|
      modifies this
      ensures Valid() && OnlyStack() && stack == old(stack[..|stack| - n])
    {
      SetTop(-(n as int) - 1);
    }

    /** `lua_tostring`: a string, or a number converted to a string in its own slot. */
    method ToString(index: int) returns (s: Option<string>)
      requires Valid() && Acceptable(stack, index)
      modifies this
      ensures Valid() && OnlyStack()
      ensures s == ToStringResult(config.coercion, old(Slot(index)))
      ensures stack == (match old(Slot(index))
                         case Some(LNumber(n)) =>
                           old(stack[StackPos(stack, index) := LString(config.coercion.toText(n))])
                         case _ => old(stack))
    {
      var slot := Slot(index);
      match slot
      case Some(LString(t)) => s := Some(t);
      case Some(LNumber(n)) =>
        var text := config.coercion.toText(n);
        stack := stack[StackPos(stack, index) := LString(text)];
        s := Some(text);
      case _ => s := None;
    }

    /** `lua_load`: pushes the compiled chunk, or the compiler's message. */
    method Load(text: string, chunkName: string, mode: string) returns (ok: bool)
      requires Valid()
      modifies this
      ensures Valid() && OnlyStack()
      ensures match config.compile(text, CString(chunkName), CString(mode))
        case Loaded(id) => ok && stack == old(stack) + [LLuaFunction(id)]
        case LoadFailed(msg) => !ok && stack == old(stack) + [LString(msg)]
    {
      match config.compile(text, CString(chunkName), CString(mode))
      case Loaded(id) =>
        Push(LLuaFunction(id));
        ok := true;
      case LoadFailed(msg) =>
        Push(LString(msg));
        ok := false;
    }

    /**
     * `lua_pcall` with `LUA_MULTRET`: calls the function below the top `nargs`
     * values and replaces it and them by its results, or by the error value.
     */
    method PCall(nargs: nat) returns (ok: bool)
      requires Valid() && nargs < |stack|
      modifies this
      ensures Valid()
      ensures
        var base := |old(stack)| - nargs - 1;
        var out := config.interpret(old(heap), old(nextRef), old(stack[base]), old(stack[base + 1..]));
        ok == out.Finished? && heap == out.heap && nextRef == out.next &&
        stack == old(stack[..base]) + (if out.Finished? then out.results else [out.error])
      ensures loaded == old(loaded) && openers == old(openers) && closed == old(closed)
    {
      var base := |stack| - nargs - 1;
      var out := config.interpret(heap, nextRef, stack[base], stack[base + 1..]);
      var keys := heap.Keys;
      var below := stack[..base];
      assert AllRefsIn(below, keys);
      AllRefsInGrow(below, keys, out.heap.Keys);
      heap := out.heap;
      nextRef := out.next;
      ok := out.Finished?;
      if out.Finished? {
        stack := below + out.results;
      } else {
        stack := below + [out.error];
      }
    }

    /**
     * `luaL_requiref` with a global: runs the opener, records the module it
     * yields under `name` in the registry and in the globals, and leaves it on
     * the stack. The libraries' contents are not modelled: each opener yields
     * a fresh empty table.
     */
    method RequireF(name: string, openf: FuncRef)
      requires Valid()
      modifies this
      ensures Valid()
      ensures
        var m := LTable(old(nextRef));
        var key := LString(CString(name));
        openers == old(openers) + [openf] &&
        loaded == old(loaded)[CString(name) := m] &&
        stack == old(stack) + [m] &&
        heap == old(heap)[old(nextRef) := []][globals := RawSet(old(heap)[globals], key, m)] &&
        nextRef == old(nextRef) + 1
      ensures closed == old(closed)
    {
      openers := openers + [openf];
      NewTable();
      var m := stack[|stack| - 1];
      loaded := loaded[CString(name) := m];
      Store(globals, LString(CString(name)), m);
    }
  }

  /** Position in the stack sequence of an index naming an existing slot. */
  function StackPos(stack: seq<LVal>, index: int): (p: nat)
    requires SlotOf(stack, index).Some?
    ensures p < |stack| && stack[p] == SlotOf(stack, index).value
  {
    if index > 0 then index - 1 else |stack| + index
  }

  function ToStringResult(c: Coercion, slot: Option<LVal>): Option<string> {
    match slot
    case Some(LString(t)) => Some(t)
    case Some(LNumber(n)) => Some(c.toText(n))
    case _ => None
  }

  lemma {:induction false} RawGetRefs(t: LTableContents, k: LVal, keys: set<Ref>)
    requires TableRefsIn(t, keys)
    ensures RefsIn(RawGet(t, k), keys)
  {
    if t != [] && t[0].key != k {
      assert TableRefsIn(t[1..], keys) by {
        forall i | 0 <= i < |t[1..]| ensures RefsIn(t[1..][i].key, keys) && RefsIn(t[1..][i].value, keys) {
          assert t[1..][i] == t[i + 1];
        }
      }
      RawGetRefs(t[1..], k, keys);
    }
  }
}
