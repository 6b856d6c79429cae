/**
 * `lua::State`: the owner of one engine handle. It creates and closes the
 * handle, hands it over on a move, guards every operation against a null
 * handle, loads and runs chunks, calls global functions, reads and writes
 * variables, registers native functions and mounts the standard libraries.
 */
module Session {
  import opened Options
  import opened LuaObject
  import opened LuaEngine
  import opened MarshalSpec
  import opened Marshal
  import opened Paths
  import opened Calls
  import Variables
  import Adapter

  /** The default chunk modes of `loadFile` and `loadString`. */
  const DefaultFileMode := "bt"
  const DefaultStringMode := "t"
  /** The chunk name `loadString` gives the engine. */
  const StringChunkName := "string_script"

  /** The libraries `loadLib` knows, and `all` for the ten of them. */
  datatype Lib =
    | BaseLib | CoroutineLib | TableLib | IoLib | OsLib | StringLib
    | Bit32Lib | MathLib | DebugLib | PackageLib | AllLibs

  /** The ten libraries in the order `loadLib(Lib::all)` mounts them. */
  const Catalog: seq<Lib> :=
    [BaseLib, CoroutineLib, TableLib, IoLib, OsLib, StringLib, Bit32Lib, MathLib, DebugLib, PackageLib]

  /**
   * `getLibraryName`: the global each library is mounted under; `all` has
   * no name of its own and falls to the default branch.
   */
  function LibraryName(lib: Lib): (name: string)
    ensures '\0' !in name && CString(name) == name
    ensures lib != AllLibs ==> name != "Error:getLibraryName"
  {
    match lib
    case BaseLib => "base"
    case CoroutineLib => "coroutine"
    case TableLib => "table"
    case IoLib => "io"
    case OsLib => "os"
    case StringLib => "string"
    case Bit32Lib => "bit32"
    case MathLib => "math"
    case DebugLib => "debug"
    case PackageLib => "package"
    case AllLibs => "Error:getLibraryName"
  }

  /**
   * `getLibraryFunction`: the opener of each library (`luaopen_base` …
   * `luaopen_package`, given here as the distinct addresses 1 to 10); `all`
   * falls to the default branch, which answers `luaopen_base`.
   */
  function LibraryFunction(lib: Lib): (f: FuncRef)
    ensures f != NullFunction
  {
    match lib
    case BaseLib => 1
    case CoroutineLib => 2
    case TableLib => 3
    case IoLib => 4
    case OsLib => 5
    case StringLib => 6
    case Bit32Lib => 7
    case MathLib => 8
    case DebugLib => 9
    case PackageLib => 10
    case AllLibs => 1
  }

  /** The openers `loadLib(Lib::all)` runs, in order. */
  function CatalogOpeners(): (fs: seq<FuncRef>)
    ensures |fs| == |Catalog| && forall i :: 0 <= i < |Catalog| ==> fs[i] == LibraryFunction(Catalog[i])
  {
    [1, 2, 3, 4, 5, 6, 7, 8, 9, 10]
  }

  /** Every library but `all` is in the catalog, once. */
  lemma CatalogComplete(lib: Lib)
    ensures lib in Catalog <==> lib != AllLibs
    ensures forall i, j :: 0 <= i < j < |Catalog| ==> Catalog[i] != Catalog[j]
  {
  }

  /** No two libraries share a name, so no mount overwrites another. */
  lemma LibraryNameInjective(a: Lib, b: Lib)
    requires a != b
    ensures LibraryName(a) != LibraryName(b)
  {
    var x, y := LibraryName(a), LibraryName(b);
    assert |x| != |y| || x[0] != y[0];
  }

  /** The names `loadLib(Lib::all)` mounts the catalog under, in order. */
  function CatalogNames(): (names: seq<string>)
    ensures |names| == |Catalog| && forall i :: 0 <= i < |Catalog| ==> names[i] == LibraryName(Catalog[i])
  {
    seq(|Catalog|, i requires 0 <= i < |Catalog| => LibraryName(Catalog[i]))
  }

  /** No two libraries of the catalog are mounted under the same name. */
  lemma CatalogNamesDistinct()
    ensures forall i, j :: 0 <= i < j < |CatalogNames()| ==> CatalogNames()[i] != CatalogNames()[j]
  {
    forall i, j | 0 <= i < j < |Catalog|
      ensures CatalogNames()[i] != CatalogNames()[j]
    {
      CatalogComplete(AllLibs);
      LibraryNameInjective(Catalog[i], Catalog[j]);
    }
  }

  /** The globals table once the first `k` of `names` are mounted as the tables `base`, `base + 1`, … */
  ghost function GlobalsAfter(g: LTableContents, names: seq<string>, k: nat, base: Ref): (t: LTableContents)
    requires k <= |names|
    ensures ValidTable(g) ==> ValidTable(t)
  {
    if k == 0 then g
    else
      var prev := GlobalsAfter(g, names, k - 1, base);
      var key := LString(names[k - 1]);
      if ValidTable(g) then RawSetValid(prev, key, LTable(base + k - 1)); RawSet(prev, key, LTable(base + k - 1))
      else RawSet(prev, key, LTable(base + k - 1))
  }

  /** The registry's loaded table once the first `k` of `names` are mounted. */
  ghost function LoadedAfter(loaded: map<string, LVal>, names: seq<string>, k: nat, base: Ref): (m: map<string, LVal>)
    requires k <= |names|
    ensures forall i :: 0 <= i < k ==> names[i] in m
  {
    if k == 0 then loaded
    else LoadedAfter(loaded, names, k - 1, base)[names[k - 1] := LTable(base + k - 1)]
  }

  /**
   * After the first `k` mounts of distinct names, the `i`-th of them can be
   * found as a global under its name, as the table allocated for it: no
   * later mount overwrites it.
   */
  lemma {:induction false} GlobalMounted(g: LTableContents, names: seq<string>, k: nat, base: Ref, i: nat)
    requires ValidTable(g) && i < k <= |names|
    requires forall a, b :: 0 <= a < b < |names| ==> names[a] != names[b]
    ensures RawGet(GlobalsAfter(g, names, k, base), LString(names[i])) == LTable(base + i)
  {
    var prev := GlobalsAfter(g, names, k - 1, base);
    RawSetGet(prev, LString(names[k - 1]), LTable(base + k - 1));
    if i < k - 1 {
      GlobalMounted(g, names, k - 1, base, i);
    }
  }

  /** After the first `k` mounts of distinct names, the `i`-th is recorded as loaded, as the table allocated for it. */
  lemma {:induction false} LoadedMounted(loaded: map<string, LVal>, names: seq<string>, k: nat, base: Ref, i: nat)
    requires i < k <= |names|
    requires forall a, b :: 0 <= a < b < |names| ==> names[a] != names[b]
    ensures LoadedAfter(loaded, names, k, base)[names[i]] == LTable(base + i)
  {
    if i < k - 1 {
      LoadedMounted(loaded, names, k - 1, base, i);
    }
  }

  /**
   * The engine state reached from heap `h0`, loaded table `l0`, openers `o0`
   * and allocation mark `n0` once the first `k` libraries with openers `fs`
   * are mounted under `names`: tables other than the globals are untouched.
   */
  ghost predicate MountedFirst(h: Heap, loaded: map<string, LVal>, openers: seq<FuncRef>, next: Ref, g: Ref,
                               h0: Heap, l0: map<string, LVal>, o0: seq<FuncRef>, n0: Ref,
                               names: seq<string>, fs: seq<FuncRef>, k: nat)
    requires k <= |names| && k <= |fs|
  {
    g in h0 && g in h && (forall r :: r in h0 ==> r < n0) &&
    openers == o0 + fs[..k] && next == n0 + k &&
    loaded == LoadedAfter(l0, names, k, n0) && h[g] == GlobalsAfter(h0[g], names, k, n0) &&
    (forall r :: r in h0 && r != g ==> r in h && h[r] == h0[r])
  }

  /** One more library mounted, under `names[k]` with opener `fs[k]`. */
  lemma MountStep(h: Heap, loaded: map<string, LVal>, openers: seq<FuncRef>, next: Ref, g: Ref,
                  h0: Heap, l0: map<string, LVal>, o0: seq<FuncRef>, n0: Ref, names: seq<string>, fs: seq<FuncRef>, k: nat,
                  h': Heap, loaded': map<string, LVal>, openers': seq<FuncRef>, next': Ref)
    requires k < |names| && k < |fs| && MountedFirst(h, loaded, openers, next, g, h0, l0, o0, n0, names, fs, k)
    requires openers' == openers + [fs[k]] && next' == next + 1
    requires loaded' == loaded[names[k] := LTable(next)]
    requires h' == h[next := []][g := RawSet(h[g], LString(names[k]), LTable(next))]
    ensures MountedFirst(h', loaded', openers', next', g, h0, l0, o0, n0, names, fs, k + 1)
  {
    assert fs[..k + 1] == fs[..k] + [fs[k]];
  }

  /**
   * Once `loadLib(Lib::all)` has mounted the catalog, every library in it
   * is both a global and a loaded module under its own name, bound to the
   * table allocated for it, the `i`-th library to the `i`-th new table.
   */
  lemma AllMounted(h: Heap, loaded: map<string, LVal>, openers: seq<FuncRef>, next: Ref, g: Ref,
                   h0: Heap, l0: map<string, LVal>, o0: seq<FuncRef>, n0: Ref, i: nat)
    requires MountedFirst(h, loaded, openers, next, g, h0, l0, o0, n0, CatalogNames(), CatalogOpeners(), |Catalog|)
    requires ValidTable(h0[g]) && i < |Catalog|
    ensures RawGet(h[g], LString(LibraryName(Catalog[i]))) == LTable(n0 + i)
    ensures loaded[LibraryName(Catalog[i])] == LTable(n0 + i)
    ensures openers[|o0| + i] == LibraryFunction(Catalog[i])
  {
    CatalogNamesDistinct();
    GlobalMounted(h0[g], CatalogNames(), |Catalog|, n0, i);
    LoadedMounted(l0, CatalogNames(), |Catalog|, n0, i);
  }

  class State {
    /** The native handle; null once cleaned up or moved from. */
    var engine: Engine?

    /** A live handle is consistent and not closed. */
    ghost predicate Valid()
      reads this, engine
    {
      engine != null ==> engine.Valid() && !engine.closed
    }

    /** `State()`: a fresh engine from `luaL_newstate`. */
    constructor (config: Config)
      requires WellBehaved(config)
      ensures Valid() && engine != null && fresh(engine)
      ensures engine.stack == [] && engine.config == config && engine.loaded == map[] && engine.openers == []
    {
      engine := null;
      new;
      Create(config);
    }

    /** `State(lua_State*)`: wraps a handle made elsewhere, or none. */
    constructor Wrap(s: Engine?)
      requires s != null ==> s.Valid() && !s.closed
      ensures Valid() && engine == s
    {
      engine := s;
    }

    /** The move constructor: the handle moves over and the source is left without one. */
    constructor MovedFrom(rhs: State)
      requires rhs.Valid()
      modifies rhs
      ensures Valid() && rhs.Valid()
      ensures engine == old(rhs.engine) && rhs.engine == null
    {
      engine := rhs.engine;
      new;
      rhs.engine := null;
    }

    /** `get`: the native handle. */
    function Get(): (s: Engine?)
      reads this
      ensures s == engine
    {
      engine
    }

    /** `cleanup`: closes a live handle and nulls it; on a null handle it does nothing. */
    method Cleanup()
      requires Valid()
      modifies this, engine
      ensures Valid() && engine == null
      ensures old(engine) != null ==> old(engine).closed && old(engine).stack == old(engine.stack)
      ensures old(engine) == null ==> unchanged(this)
    {
      if engine != null {
        engine.Close();
        engine := null;
      }
    }

    /** `destroy`, and the destructor: `cleanup`. */
    method Destroy()
      requires Valid()
      modifies this, engine
      ensures Valid() && engine == null
      ensures old(engine) != null ==> old(engine).closed
      ensures old(engine) == null ==> unchanged(this)
    {
      Cleanup();
    }

    /** `create`: any handle held is closed first, then a new one is made. */
    method Create(config: Config)
      requires Valid() && WellBehaved(config)
      modifies this, engine
      ensures Valid() && engine != null && fresh(engine)
      ensures engine.stack == [] && engine.config == config && engine.loaded == map[] && engine.openers == []
      ensures old(engine) != null ==> old(engine).closed
    {
      Cleanup();
      engine := new Engine(config);
    }

    /**
     * Move assignment: a no-op onto itself; otherwise the handle held is
     * closed and the source's handle moves over. Each handle has one owner.
     */
    method MoveAssign(rhs: State)
      requires Valid() && rhs.Valid()
      requires rhs != this && engine != null ==> engine != rhs.engine
      modifies this, engine, rhs
      ensures Valid() && rhs.Valid()
      ensures rhs == this ==> unchanged(this) && (engine != null ==> unchanged(engine))
      ensures rhs != this ==> engine == old(rhs.engine) && rhs.engine == null
      ensures rhs != this && old(engine) != null ==> old(engine).closed
    {
      if rhs == this {
        return;
      }
      Cleanup();
      engine := rhs.engine;
      rhs.engine := null;
    }

    /**
     * `loadString`: after the guards, the script is compiled under the
     * chunk name "string_script" and pushed, or `compile_error` is thrown.
     */
    method LoadString(script: string, mode: string := DefaultStringMode) returns (r: Result<()>)
      requires Valid()
      modifies engine
      ensures Valid()
      ensures LoadGuard(engine != null, mode).Err? ==> r == LoadGuard(engine != null, mode) && (engine != null ==> unchanged(engine))
      ensures LoadGuard(engine != null, mode).Ok? ==>
        engine.OnlyStack() && LoadedChunk(engine.config, script, StringChunkName, mode, old(engine.stack), engine.stack, r)
    {
      r := LoadGuard(engine != null, mode);
      if r.Err? {
        return;
      }
      r := LoadChunk(engine, script, StringChunkName, mode);
    }

    /**
     * `loadFile`: as `loadString`, with the file name as the chunk name;
     * `contents` is what reading the file yields, None when it cannot be
     * opened, which is a `compile_error` without an engine value.
     */
    method LoadFile(filename: string, contents: Option<string>, mode: string := DefaultFileMode) returns (r: Result<()>)
      requires Valid()
      modifies engine
      ensures Valid()
      ensures LoadGuard(engine != null, mode).Err? ==> r == LoadGuard(engine != null, mode) && (engine != null ==> unchanged(engine))
      ensures LoadGuard(engine != null, mode).Ok? && contents.None? ==> r == Err(CompileError(None)) && unchanged(engine)
      ensures LoadGuard(engine != null, mode).Ok? && contents.Some? ==>
        engine.OnlyStack() && LoadedChunk(engine.config, contents.value, filename, mode, old(engine.stack), engine.stack, r)
    {
      r := LoadGuard(engine != null, mode);
      if r.Err? {
        return;
      }
      if contents.None? {
        return Err(CompileError(None));
      }
      r := LoadChunk(engine, contents.value, filename, mode);
    }

    /**
     * `run`: a protected call of the chunk on top with no arguments; every
     * value then on the stack is returned bottom to top and the stack is
     * left empty; a failure becomes `script_error` with the error popped.
     */
    method Run() returns (r: Result<seq<Object>>, ghost ok: bool, ghost s1: seq<LVal>)
      requires Valid() && (engine != null ==> |engine.stack| >= 1)
      modifies engine
      ensures Valid()
      ensures engine == null ==> r == Err(UninitializedResource)
      ensures engine != null ==>
        Closed(engine.heap) && AllRefsIn(s1, engine.heap.Keys) && (ok || |s1| >= 1) &&
        Called(engine.config, old(engine.heap), old(engine.nextRef), old(engine.stack), 0, engine.heap, engine.nextRef, s1, ok) &&
        r == Returned(engine.config, engine.heap, s1, ok) &&
        (r.Ok? ==> engine.stack == []) &&
        (!ok && PullSlot(engine.config, engine.heap, s1, |s1| - 1).Ok? ==> engine.stack == s1[..|s1| - 1])
    {
      if engine == null {
        return Err(UninitializedResource), false, [];
      }
      r, ok, s1 := CallLuaFunction(engine, 0);
    }

    /**
     * `call`: the global named exactly `fn` (no dotted path) is
     * pushed, then the arguments left to right, and the function is called
     * with as many arguments. At least one argument is needed for the
     * template to instantiate. The ghost results describe the stack
     * `before` the protected call, with heap `h1` and allocation mark `n1`,
     * once every argument was pushed.
     */
    method Call(fn: string, args: seq<Object>)
      returns (r: Result<seq<Object>>, ghost pushed: bool, ghost h1: Heap, ghost n1: Ref, ghost before: seq<LVal>, ghost ok: bool, ghost s1: seq<LVal>)
      requires Valid() && |args| >= 1
      modifies engine
      ensures Valid()
      ensures engine == null ==> r == Err(UninitializedResource)
      ensures engine != null && !pushed ==> r.Err? && (r.error == OverflowError || r.error == LuaError("table index is nil"))
      ensures engine != null && pushed ==>
        var height := |old(engine.stack)|;
        Extends(old(engine.heap), h1) &&
        |before| == height + 1 + |args| && before[..height] == old(engine.stack) &&
        before[height] == RawGet(old(engine.heap)[engine.globals], LString(CString(fn))) &&
        Adapter.AllEncode(h1, old(engine.heap).Keys, before[height + 1..], args) &&
        Closed(engine.heap) && AllRefsIn(s1, engine.heap.Keys) && (ok || |s1| >= 1) &&
        Called(engine.config, h1, n1, before, |args|, engine.heap, engine.nextRef, s1, ok) &&
        r == Returned(engine.config, engine.heap, s1, ok) &&
        (r.Ok? ==> engine.stack == [])
    {
      if engine == null {
        return Err(UninitializedResource), false, map[], 0, [], false, [];
      }
      var p := PushCall(engine, fn, args);
      if p.Err? {
        return Err(p.error), false, map[], 0, [], false, [];
      }
      pushed, h1, n1, before := true, engine.heap, engine.nextRef, engine.stack;
      r, ok, s1 := CallLuaFunction(engine, |args|);
    }

    /**
     * `setVariable`: on a live handle, `Variables.Assign`. The value is
     * stored under the last segment of the table the others lead to, and
     * the stack height is restored.
     */
    method SetVariable(name: string, o: Object) returns (r: Result<()>)
      requires Valid()
      modifies engine
      ensures Valid()
      ensures engine == null ==> r == Err(UninitializedResource)
      ensures engine != null ==>
        var segs := Split(name);
        var t := Variables.Target(old(engine.heap), engine.globals, segs);
        (t.Err? ==> r.Err?) &&
        (!Variables.Reaches(old(engine.heap), engine.globals, segs) ==> r == Err(Variables.NotATable)) &&
        (r.Ok? ==> t.Ok? && engine.stack == old(engine.stack) &&
                   Variables.Stored(old(engine.heap), engine.heap, t.value, Variables.Key(segs[|segs| - 1]), o))
    {
      if engine == null {
        return Err(UninitializedResource);
      }
      r := Variables.Assign(engine, name, o);
    }

    /**
     * `getVariable`: on a live handle, the value the path leads to, pulled
     * with the ignore list and the default budget. The stack height is
     * restored, as `setVariable` restores it (`Variables.ReadRestoring`;
     * `Variables.Read` is the lookup as written, which leaves the segments
     * before the last on the stack).
     */
    method GetVariable(name: string, ignore: set<Object> := {}) returns (r: Result<Object>)
      requires Valid()
      modifies engine
      ensures Valid()
      ensures engine == null ==> r == Err(UninitializedResource)
      ensures engine != null ==>
        engine.OnlyStack() && Closed(engine.heap) &&
        r == Variables.ReadResult(engine.config, engine.heap, engine.globals, |old(engine.stack)|, Split(name), ignore) &&
        (r.Ok? ==> engine.stack == old(engine.stack))
    {
      if engine == null {
        return Err(UninitializedResource);
      }
      r := Variables.ReadRestoring(engine, name, ignore);
    }

    /**
     * `registerFunction`, through `internal::registerFunction`: the closure
     * of the adapter `registered` over the native function `func` is stored
     * under `name`, as `setVariable` stores a value.
     */
    method RegisterFunction(name: string, func: nat, registered: FuncRef) returns (r: Result<()>)
      requires Valid()
      modifies engine
      ensures Valid()
      ensures engine == null ==> r == Err(UninitializedResource)
      ensures engine != null ==>
        var segs := Split(name);
        var t := Variables.Target(old(engine.heap), engine.globals, segs);
        (r.Ok? <==> t.Ok? && |old(engine.stack)| + |segs| + 1 <= engine.config.capacity) &&
        (r.Err? ==> engine.heap == old(engine.heap)) &&
        (r.Ok? ==> engine.stack == old(engine.stack) &&
                   engine.heap == old(engine.heap)[t.value := RawSet(old(engine.heap)[t.value], Variables.Key(segs[|segs| - 1]),
                                                                     Variables.Closure(func, registered))])
    {
      if engine == null {
        return Err(UninitializedResource);
      }
      r := Variables.Register(engine, name, func, registered);
    }

    /** `luaL_requiref(state, name, f, 1)` then `lua_pop(state, 1)`: one library mounted under `name`. */
    method Mount(name: string, f: FuncRef)
      requires Valid() && engine != null
      modifies engine
      ensures Valid() && engine.stack == old(engine.stack)
      ensures engine.openers == old(engine.openers) + [f] && engine.nextRef == old(engine.nextRef) + 1
      ensures var t := LTable(old(engine.nextRef));
        engine.loaded == old(engine.loaded)[CString(name) := t] &&
        engine.heap == old(engine.heap)[old(engine.nextRef) := []][engine.globals := RawSet(old(engine.heap)[engine.globals], LString(CString(name)), t)]
    {
      engine.RequireF(name, f);
      engine.Pop(1);
    }

    /**
     * `loadLib(lib)`: `all` mounts the ten libraries of the catalog one
     * after the other; any other library is mounted under its own name.
     * The stack height does not change. The source has no null check.
     */
    method LoadLib(lib: Lib)
      requires Valid() && engine != null
      modifies engine
      ensures Valid() && engine.stack == old(engine.stack)
      ensures lib != AllLibs ==>
        var t := LTable(old(engine.nextRef));
        engine.openers == old(engine.openers) + [LibraryFunction(lib)] && engine.nextRef == old(engine.nextRef) + 1 &&
        engine.loaded == old(engine.loaded)[LibraryName(lib) := t] &&
        engine.heap == old(engine.heap)[old(engine.nextRef) := []][engine.globals := RawSet(old(engine.heap)[engine.globals], LString(LibraryName(lib)), t)]
      ensures lib == AllLibs ==>
        MountedFirst(engine.heap, engine.loaded, engine.openers, engine.nextRef, engine.globals,
                     old(engine.heap), old(engine.loaded), old(engine.openers), old(engine.nextRef),
                     CatalogNames(), CatalogOpeners(), |Catalog|)
      decreases if lib == AllLibs then 3 else 0
    {
      if lib == AllLibs {
        ghost var h0, l0, o0, n0 := engine.heap, engine.loaded, engine.openers, engine.nextRef;
        assert o0 + CatalogOpeners()[..0] == o0;
        MountRest(0, h0, l0, o0, n0);
      } else {
        var name := LibraryName(lib);
        Mount(name, LibraryFunction(lib));
      }
    }

    /**
     * The `loadLib` calls of `loadLib(Lib::all)` from catalog entry `k` to the
     * last, in catalog order.
     */
    method MountRest(k: nat, ghost h0: Heap, ghost l0: map<string, LVal>, ghost o0: seq<FuncRef>, ghost n0: Ref)
      requires Valid() && engine != null && k <= |Catalog|
      requires MountedFirst(engine.heap, engine.loaded, engine.openers, engine.nextRef, engine.globals,
                            h0, l0, o0, n0, CatalogNames(), CatalogOpeners(), k)
      modifies engine
      ensures Valid() && engine.stack == old(engine.stack)
      ensures MountedFirst(engine.heap, engine.loaded, engine.openers, engine.nextRef, engine.globals,
                           h0, l0, o0, n0, CatalogNames(), CatalogOpeners(), |Catalog|)
      decreases 2, |Catalog| - k
    {
      if k < |Catalog| {
        MountNext(k, h0, l0, o0, n0);
        MountRest(k + 1, h0, l0, o0, n0);
      }
    }

    /**
     * One of the ten `loadLib` calls of `loadLib(Lib::all)`: library `k` of
     * the catalog, mounted after the ones before it.
     */
    method MountNext(k: nat, ghost h0: Heap, ghost l0: map<string, LVal>, ghost o0: seq<FuncRef>, ghost n0: Ref)
      requires Valid() && engine != null && k < |Catalog|
      requires MountedFirst(engine.heap, engine.loaded, engine.openers, engine.nextRef, engine.globals,
                            h0, l0, o0, n0, CatalogNames(), CatalogOpeners(), k)
      modifies engine
      ensures Valid() && engine.stack == old(engine.stack)
      ensures MountedFirst(engine.heap, engine.loaded, engine.openers, engine.nextRef, engine.globals,
                           h0, l0, o0, n0, CatalogNames(), CatalogOpeners(), k + 1)
      decreases 1
    {
      var lib := Catalog[k];
      assert lib != AllLibs by { CatalogComplete(lib); }
      LoadLib(lib);
      MountStep(old(engine.heap), old(engine.loaded), old(engine.openers), old(engine.nextRef), engine.globals,
                h0, l0, o0, n0, CatalogNames(), CatalogOpeners(), k, engine.heap, engine.loaded, engine.openers, engine.nextRef);
    }

    /**
     * `loadLib(lib, name)`: a single library is mounted under `name`
     * instead of its own; for `all` the name is ignored and the ten
     * libraries are mounted as `loadLib(Lib::all)` mounts them.
     */
    method LoadLibNamed(lib: Lib, name: string)
      requires Valid() && engine != null
      modifies engine
      ensures Valid() && engine.stack == old(engine.stack)
      ensures lib != AllLibs ==>
        var t := LTable(old(engine.nextRef));
        engine.openers == old(engine.openers) + [LibraryFunction(lib)] && engine.nextRef == old(engine.nextRef) + 1 &&
        engine.loaded == old(engine.loaded)[CString(name) := t] &&
        engine.heap == old(engine.heap)[old(engine.nextRef) := []][engine.globals := RawSet(old(engine.heap)[engine.globals], LString(CString(name)), t)]
      ensures lib == AllLibs ==>
        MountedFirst(engine.heap, engine.loaded, engine.openers, engine.nextRef, engine.globals,
                     old(engine.heap), old(engine.loaded), old(engine.openers), old(engine.nextRef),
                     CatalogNames(), CatalogOpeners(), |Catalog|)
    {
      if lib == AllLibs {
        LoadLib(AllLibs);
      } else {
        Mount(name, LibraryFunction(lib));
      }
    }
  }
}
