/**
 * The engine-side steps of a session that are not about variables: loading
 * a chunk, pushing call arguments, and `internal::callLuaFunction`, which
 * runs a protected call and collects what it left on the stack.
 */
module Calls {
  import opened Options
  import opened LuaObject
  import opened LuaEngine
  import opened MarshalSpec
  import opened Marshal
  import Adapter

  // Loading

  /** The chunk modes `lua_load` accepts: binary, text, or either. */
  predicate ValidMode(mode: string) {
    mode == "b" || mode == "t" || mode == "bt" || mode == "tb"
  }

  /**
   * The guards of `loadFile` and `loadString`, in their order: the handle
   * first, then the mode; only then is the engine called.
   */
  function LoadGuard(live: bool, mode: string): (r: Result<()>)
    ensures r.Ok? <==> live && ValidMode(mode)
    ensures !live ==> r == Err(UninitializedResource)
    ensures live && !ValidMode(mode) ==> r == Err(InvalidArgument)
  {
    if !live then Err(UninitializedResource)
    else if !ValidMode(mode) then Err(InvalidArgument)
    else Ok(())
  }

  /**
   * What loading `text` does to a stack `s0`: the compiled chunk is pushed,
   * or the compiler's message is pulled back as a string Object and popped
   * and becomes the detail of `compile_error`.
   */
  ghost predicate LoadedChunk(c: Config, text: string, chunkName: string, mode: string, s0: seq<LVal>, s: seq<LVal>, r: Result<()>) {
    match c.compile(text, CString(chunkName), CString(mode))
    case Loaded(id) => r == Ok(()) && s == s0 + [LLuaFunction(id)]
    case LoadFailed(msg) => r == Err(CompileError(Some(String(CString(msg))))) && s == s0
  }

  /** `lua_load` and, when it fails, the pull and pop of its error value. */
  method LoadChunk(e: Engine, text: string, chunkName: string, mode: string) returns (r: Result<()>)
    requires e.Valid()
    modifies e
    ensures e.Valid() && e.OnlyStack()
    ensures LoadedChunk(e.config, text, chunkName, mode, old(e.stack), e.stack, r)
  {
    var ok := e.Load(text, chunkName, mode);
    if ok {
      return Ok(());
    }
    // A string always pulls back.
    var err := PullObject(e, -1, {}, MaxTableRecursion);
    assert err.Ok?;
    e.Pop(1);
    r := Err(CompileError(Some(err.value)));
  }

  // Calling

  /**
   * What `GetStackVar<Object>` with its default ignore list and budget yields
   * for slot `i` while the stack is `i + 1` slots high, that is when the slot
   * is on top.
   */
  function PullSlot(c: Config, h: Heap, s: seq<LVal>, i: nat): Result<Object>
    requires Closed(h) && AllRefsIn(s, h.Keys) && i < |s|
  {
    Convert(h, c.capacity - (i + 1), Some(s[i]), {}, MaxTableRecursion)
  }

  /**
   * The count-down loop of `run` and `callLuaFunction`: the top value is
   * pulled and popped until the stack is empty, each one stored at its own
   * height, so the results come out bottom to top. The first pull that
   * throws ends the loop.
   */
  function PullAll(c: Config, h: Heap, s: seq<LVal>): (r: Result<seq<Object>>)
    requires Closed(h) && AllRefsIn(s, h.Keys)
    ensures r.Ok? ==> |r.value| == |s|
    decreases |s|
  {
    if s == [] then Ok([])
    else
      var below := s[..|s| - 1];
      AllRefsInPrefix(s, h.Keys, |s| - 1);
      match PullSlot(c, h, s, |s| - 1)
      case Err(x) => Err(x)
      case Ok(o) =>
        match PullAll(c, h, below)
        case Err(x) => Err(x)
        case Ok(os) => Ok(os + [o])
  }

  /**
   * The results are the slots pulled one by one: the collection succeeds
   * exactly when every slot pulls, and result `i` is slot `i` pulled at its
   * own height.
   */
  lemma {:induction false} PullAllSlots(c: Config, h: Heap, s: seq<LVal>)
    requires Closed(h) && AllRefsIn(s, h.Keys)
    ensures PullAll(c, h, s).Ok? <==> forall i :: 0 <= i < |s| ==> PullSlot(c, h, s, i).Ok?
    ensures PullAll(c, h, s).Ok? ==>
      forall i :: 0 <= i < |s| ==> PullAll(c, h, s).value[i] == PullSlot(c, h, s, i).value
    decreases |s|
  {
    if s != [] {
      var below := s[..|s| - 1];
      AllRefsInPrefix(s, h.Keys, |s| - 1);
      PullAllSlots(c, h, below);
      forall i | 0 <= i < |below| ensures PullSlot(c, h, below, i) == PullSlot(c, h, s, i) {
        assert below[i] == s[i];
      }
    }
  }

  /**
   * What `callLuaFunction` returns once the protected call left the stack
   * `s1`: on success every slot pulled bottom to top; on failure the error
   * value on top pulled back into `script_error`, unless pulling it throws.
   */
  function Returned(c: Config, h: Heap, s1: seq<LVal>, ok: bool): (r: Result<seq<Object>>)
    requires Closed(h) && AllRefsIn(s1, h.Keys) && (ok || |s1| >= 1)
    ensures !ok ==> r.Err?
    ensures ok ==> (r.Ok? <==> forall i :: 0 <= i < |s1| ==> PullSlot(c, h, s1, i).Ok?)
    ensures ok && r.Ok? ==> |r.value| == |s1| && forall i :: 0 <= i < |s1| ==> r.value[i] == PullSlot(c, h, s1, i).value
  {
    PullAllSlots(c, h, s1);
    if ok then PullAll(c, h, s1)
    else Thrown(PullSlot(c, h, s1, |s1| - 1))
  }

  /** What a failed call throws: the error value as a script error, or the error its pull threw. */
  function Thrown(pulled: Result<Object>): (r: Result<seq<Object>>)
    ensures r.Err?
    ensures r.error == if pulled.Ok? then ScriptError(pulled.value) else pulled.error
  {
    match pulled
    case Ok(o) => Err(ScriptError(o))
    case Err(x) => Err(x)
  }

  /**
   * The effect of `lua_pcall(state, nargs, LUA_MULTRET, 0)` on a stack `s`,
   * heap `h` and allocation mark `next`: the function below the top `nargs`
   * values is run on them, and it and they are replaced by its results, or
   * by its error value.
   */
  ghost predicate Called(c: Config, h: Heap, next: Ref, s: seq<LVal>, nargs: nat, h': Heap, next': Ref, s1: seq<LVal>, ok: bool)
    requires nargs < |s|
  {
    var base := |s| - nargs - 1;
    var out := c.interpret(h, next, s[base], s[base + 1..]);
    ok == out.Finished? && h' == out.heap && next' == out.next &&
    s1 == s[..base] + (if ok then out.results else [out.error])
  }

  /**
   * The pull-and-pop loop over the whole stack, with the results written
   * into a vector from its last element down.
   */
  method PullResults(e: Engine) returns (r: Result<seq<Object>>)
    requires e.Valid()
    modifies e
    ensures e.Valid() && e.OnlyStack() && Closed(e.heap)
    ensures r == PullAll(e.config, e.heap, old(e.stack))
    ensures r.Ok? ==> e.stack == []
  {
    HeapOkClosed(e.heap, e.nextRef);
    ghost var s0 := e.stack;
    var retsLeft := |e.stack|;
    var ret := new Object[retsLeft];
    assert e.stack == s0[..retsLeft] && ret[retsLeft..] == [];
    AppendedNothing(PullAll(e.config, e.heap, s0));
    while retsLeft > 0
      invariant 0 <= retsLeft <= |s0| == ret.Length
      invariant e.Valid() && e.OnlyStack() && e.stack == s0[..retsLeft]
      invariant PullAll(e.config, e.heap, s0) == Appended(PullAll(e.config, e.heap, e.stack), ret[retsLeft..])
    {
      var x := PullInto(e, ret, retsLeft, s0);
      if x.Some? {
        return Err(x.value);
      }
      retsLeft := retsLeft - 1;
    }
    assert e.stack == [] && ret[retsLeft..] == ret[..] && [] + ret[..] == ret[..];
    r := Ok(ret[..]);
  }

  /**
   * One turn of the loop: the top of the `k` slots left is pulled and popped
   * and stored at index `k - 1`, or its pull throws.
   */
  method PullInto(e: Engine, ret: array<Object>, k: nat, ghost s0: seq<LVal>) returns (x: Option<Exception>)
    requires e.Valid() && Closed(e.heap) && AllRefsIn(s0, e.heap.Keys)
    requires 0 < k <= |s0| == ret.Length && e.stack == s0[..k]
    modifies e, ret
    ensures e.Valid() && e.OnlyStack()
    ensures AllRefsIn(s0[..k], e.heap.Keys) && AllRefsIn(s0[..k - 1], e.heap.Keys)
    ensures x.None? ==> e.stack == s0[..k - 1]
    ensures Appended(PullAll(e.config, e.heap, s0[..k]), old(ret[k..])) ==
      if x.Some? then Err(x.value) else Appended(PullAll(e.config, e.heap, s0[..k - 1]), ret[k - 1..])
  {
    ghost var tail := ret[k..];
    PulledStep(e.config, e.heap, s0, k, tail);
    var obj := PullObject(e, -1, {}, MaxTableRecursion);
    if obj.Err? {
      return Some(obj.error);
    }
    e.Pop(1);
    ret[k - 1] := obj.value;
    assert ret[k - 1..] == [obj.value] + tail;
    x := None;
  }

  /** A collection that succeeded, with values already collected above it. */
  function Appended(r: Result<seq<Object>>, tail: seq<Object>): Result<seq<Object>> {
    match r
    case Ok(os) => Ok(os + tail)
    case Err(x) => Err(x)
  }

  lemma AppendedNothing(r: Result<seq<Object>>)
    ensures Appended(r, []) == r
  {
    if r.Ok? {
      assert r.value + [] == r.value;
    }
  }

  /** One turn of the loop: the top slot of `s0[..k]` is pulled before the slots below it. */
  lemma PulledStep(c: Config, h: Heap, s0: seq<LVal>, k: nat, tail: seq<Object>)
    requires Closed(h) && AllRefsIn(s0, h.Keys) && 0 < k <= |s0|
    ensures AllRefsIn(s0[..k], h.Keys) && AllRefsIn(s0[..k - 1], h.Keys)
    ensures var top := Convert(h, c.capacity - k, Some(s0[k - 1]), {}, MaxTableRecursion);
      Appended(PullAll(c, h, s0[..k]), tail) ==
        if top.Err? then Err(top.error) else Appended(PullAll(c, h, s0[..k - 1]), [top.value] + tail)
  {
    AllRefsInPrefix(s0, h.Keys, k);
    AllRefsInPrefix(s0, h.Keys, k - 1);
    assert s0[..k][..k - 1] == s0[..k - 1];
    assert s0[..k][k - 1] == s0[k - 1];
    var top := PullSlot(c, h, s0[..k], k - 1);
    if top.Ok? && PullAll(c, h, s0[..k - 1]).Ok? {
      var os := PullAll(c, h, s0[..k - 1]).value;
      assert os + [top.value] + tail == os + ([top.value] + tail);
    }
  }

  /**
   * `internal::callLuaFunction`: a protected call of the function below the
   * top `nargs` values; on failure its error value is pulled and popped and
   * thrown as `script_error`, on success the whole stack is collected.
   */
  method CallLuaFunction(e: Engine, nargs: nat) returns (r: Result<seq<Object>>, ghost ok: bool, ghost s1: seq<LVal>)
    requires e.Valid() && nargs < |e.stack|
    modifies e
    ensures e.Valid() && Closed(e.heap) && AllRefsIn(s1, e.heap.Keys) && (ok || |s1| >= 1)
    ensures Called(e.config, old(e.heap), old(e.nextRef), old(e.stack), nargs, e.heap, e.nextRef, s1, ok)
    ensures r == Returned(e.config, e.heap, s1, ok)
    ensures r.Ok? ==> e.stack == []
    ensures !ok && PullSlot(e.config, e.heap, s1, |s1| - 1).Ok? ==> e.stack == s1[..|s1| - 1]
    ensures e.loaded == old(e.loaded) && e.openers == old(e.openers) && e.closed == old(e.closed)
  {
    var success := e.PCall(nargs);
    ok := success;
    s1 := e.stack;
    HeapOkClosed(e.heap, e.nextRef);
    if !success {
      r := PullError(e, s1);
    } else {
      r := PullResults(e);
    }
  }

  /** The failure branch of `callLuaFunction`: the error value on top is pulled and popped, and thrown as a script error. */
  method PullError(e: Engine, ghost s1: seq<LVal>) returns (r: Result<seq<Object>>)
    requires e.Valid() && Closed(e.heap) && |e.stack| >= 1 && s1 == e.stack
    modifies e
    ensures e.Valid() && e.OnlyStack() && Closed(e.heap) && AllRefsIn(s1, e.heap.Keys)
    ensures r == Returned(e.config, e.heap, s1, false)
    ensures PullSlot(e.config, e.heap, s1, |s1| - 1).Ok? ==> e.stack == s1[..|s1| - 1]
  {
    var err := PullObject(e, -1, {}, MaxTableRecursion);
    assert err == PullSlot(e.config, e.heap, s1, |s1| - 1);
    if err.Ok? {
      e.Pop(1);
    }
    r := Thrown(err);
  }

  /** `internal::pushArgs`: the arguments pushed left to right, each with the `PushVar` of its own type, given here as the Objects those pushes encode. */
  method PushArgs(e: Engine, args: seq<Object>) returns (r: Result<()>)
    requires e.Valid()
    modifies e
    ensures e.Valid() && Extends(old(e.heap), e.heap)
    ensures e.loaded == old(e.loaded) && e.openers == old(e.openers) && e.closed == old(e.closed)
    ensures |e.stack| >= |old(e.stack)| && e.stack[..|old(e.stack)|] == old(e.stack)
    ensures r.Ok? ==> |e.stack| == |old(e.stack)| + |args| &&
                      Adapter.AllEncode(e.heap, old(e.heap).Keys, e.stack[|old(e.stack)|..], args)
    ensures r.Err? ==> r.error == OverflowError || r.error == LuaError("table index is nil")
  {
    ghost var s0 := e.stack;
    ghost var keys := e.heap.Keys;
    var i := 0;
    while i < |args|
      invariant 0 <= i <= |args|
      invariant e.Valid() && Extends(old(e.heap), e.heap)
      invariant e.loaded == old(e.loaded) && e.openers == old(e.openers) && e.closed == old(e.closed)
      invariant |e.stack| == |s0| + i && e.stack[..|s0|] == s0
      invariant Adapter.AllEncode(e.heap, keys, e.stack[|s0|..], args[..i])
    {
      ghost var hb := e.heap;
      ghost var sb := e.stack;
      var p := PushObject(e, args[i]);
      if p.Err? {
        PrefixOfPrefix(e.stack, sb, s0);
        return Err(p.error);
      }
      Adapter.ResultAppended(hb, e.heap, keys, sb, e.stack, s0, args, i);
      i := i + 1;
    }
    assert args[..i] == args;
    r := Ok(());
  }

  /**
   * The pushes `call` makes before its protected call: the global named
   * exactly `fn`, then the arguments left to right, each encoded into the
   * heap as `pushArgs` pushes it.
   */
  method PushCall(e: Engine, fn: string, args: seq<Object>) returns (r: Result<()>)
    requires e.Valid()
    modifies e
    ensures e.Valid() && Extends(old(e.heap), e.heap)
    ensures e.loaded == old(e.loaded) && e.openers == old(e.openers) && e.closed == old(e.closed)
    ensures r.Err? ==> r.error == OverflowError || r.error == LuaError("table index is nil")
    ensures r.Ok? ==>
      var height := |old(e.stack)|;
      |e.stack| == height + 1 + |args| && e.stack[..height] == old(e.stack) &&
      e.stack[height] == RawGet(old(e.heap)[e.globals], LString(CString(fn))) &&
      Adapter.AllEncode(e.heap, old(e.heap).Keys, e.stack[height + 1..], args)
  {
    e.GetGlobal(fn);
    ghost var s := e.stack;
    r := PushArgs(e, args);
    assert e.stack[..|s|] == s;
    assert e.stack[..|s| - 1] == s[..|s| - 1];
  }
}
