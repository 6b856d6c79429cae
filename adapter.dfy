/**
 * `registeredCFunction<R, Args...>`, the C function the engine calls for a
 * registered native function. The template's parameter pack becomes a run-time
 * list of parameter kinds and the native function an opaque function on host
 * values: the adapter pulls argument i from stack slot i + 1 with the typed
 * pull for its kind, rejects any other argument count, calls the function,
 * pushes what it returned and reports the count, and turns every exception into
 * a Lua error with a fixed message.
 */
module Adapter {
  import opened Options
  import opened LuaObject
  import opened LuaEngine
  import opened MarshalSpec
  import opened Marshal

  /** The C++ parameter types a native function may declare. */
  datatype ParamKind = KObject | KNumber | KInteger | KString | KTable | KFunction | KBoolean

  /** A C++ argument or return value of one of those types. */
  datatype HostValue =
    | HObject(o: Object)
    | HNumber(n: real)
    | HInteger(i: int)
    | HString(s: string)
    | HTable(t: seq<Pair>)
    | HFunction(f: FuncRef)
    | HBoolean(b: bool)

  function KindOf(v: HostValue): ParamKind {
    match v
    case HObject(_) => KObject
    case HNumber(_) => KNumber
    case HInteger(_) => KInteger
    case HString(_) => KString
    case HTable(_) => KTable
    case HFunction(_) => KFunction
    case HBoolean(_) => KBoolean
  }

  /** What the native function returned: `void`, a single value, or a `std::vector<Object>`. */
  datatype HostResult = NoResult | One(value: HostValue) | Many(values: seq<Object>)

  datatype HostOutcome = Returned(result: HostResult) | Threw(exception: Exception)

  type NativeFunction = seq<HostValue> -> HostOutcome

  /**
   * How the adapter hands control back to the engine: a result count, a Lua
   * error whose message is on top of the stack, or a Lua error raised with
   * whatever value was on top because there was no room for the message.
   */
  datatype AdapterOutcome = Returns(count: nat) | Raises(message: string) | RaisesTop

  /** `Object::makeAuto`, through `MakeObject<T>`: the Object a host value stands for. */
  function AsObject(v: HostValue): (o: Object)
    ensures v.HObject? ==> o == v.o
    ensures v.HNumber? ==> o.IsNumber() && o.GetNumber() == Ok(v.n)
    ensures v.HInteger? ==> o.IsInteger() && o.GetInteger() == Ok(v.i)
    ensures v.HString? ==> o.GetString() == Ok(v.s)
    ensures v.HTable? ==> o.GetTable() == Ok(v.t)
    ensures v.HFunction? ==> o.GetFunction() == Ok(v.f)
    ensures v.HBoolean? ==> o.GetBoolean() == Ok(v.b)
  {
    match v
    case HObject(o) => o
    case HNumber(n) => MakeNumber(n)
    case HInteger(i) => MakeInteger(i)
    case HString(s) => MakeString(s)
    case HTable(t) => MakeTable(t)
    case HFunction(f) => MakeFunction(f)
    case HBoolean(b) => MakeBoolean(b)
  }

  /** An Object pull's outcome as an argument. */
  function ObjectArg(res: Result<Object>): (r: Result<HostValue>)
    ensures r.Ok? <==> res.Ok?
    ensures r.Ok? ==> r.value == HObject(res.value)
  {
    match res
    case Ok(o) => Ok(HObject(o))
    case Err(x) => Err(x)
  }

  /** A table pull's outcome as an argument: an Object that is not a table is refused. */
  function TableArg(res: Result<Object>): (r: Result<HostValue>)
    ensures r.Ok? <==> res.Ok? && res.value.Table?
    ensures r.Ok? ==> r.value == HTable(res.value.entries)
  {
    match res
    case Ok(o) => (match o.GetTable() case Ok(t) => Ok(HTable(t)) case Err(x) => Err(x))
    case Err(x) => Err(x)
  }

  /**
   * `GetStackVar<T>` with its default arguments for the parameter kind: the
   * Object and table pulls take no ignore list and the default budget.
   */
  function ArgValue(c: Coercion, h: Heap, room: int, slot: Option<LVal>, kind: ParamKind): (r: Result<HostValue>)
    requires Closed(h) && (slot.Some? ==> RefsIn(slot.value, h.Keys))
    ensures r.Ok? ==> KindOf(r.value) == kind
  {
    match kind
    case KObject => ObjectArg(Convert(h, room, slot, {}, MaxTableRecursion))
    case KTable => TableArg(Convert(h, room, slot, {}, MaxTableRecursion))
    case KNumber => (match PullNumber(c, slot) case Ok(n) => Ok(HNumber(n)) case Err(x) => Err(x))
    case KInteger => (match PullInteger(c, slot) case Ok(i) => Ok(HInteger(i)) case Err(x) => Err(x))
    case KString => (match PullString(c, slot) case Ok(s) => Ok(HString(s)) case Err(x) => Err(x))
    case KFunction => (match PullFunction(slot) case Ok(f) => Ok(HFunction(f)) case Err(x) => Err(x))
    case KBoolean => (match PullBoolean(slot) case Ok(b) => Ok(HBoolean(b)) case Err(x) => Err(x))
  }

  /**
   * `prepareArgs` over the first `n` parameters: the pulls run in declared
   * order from slot 1, and the first one that throws ends them. Each pull sees
   * the stack as the caller left it, since none moves the top.
   */
  function Args(c: Coercion, h: Heap, room: int, stack: seq<LVal>, kinds: seq<ParamKind>, n: nat): (r: Result<seq<HostValue>>)
    requires Closed(h) && AllRefsIn(stack, h.Keys) && n <= |kinds|
    ensures r.Ok? ==> |r.value| == n
  {
    if n == 0 then Ok([])
    else
      SlotRefsIn(stack, n, h.Keys);
      match Args(c, h, room, stack, kinds, n - 1)
      case Err(x) => Err(x)
      case Ok(vs) =>
        match ArgValue(c, h, room, SlotOf(stack, n), kinds[n - 1])
        case Err(x) => Err(x)
        case Ok(v) => Ok(vs + [v])
  }

  /** Argument `i` is the pull of slot `i + 1` for parameter `i`. */
  lemma {:induction false} ArgsAt(c: Coercion, h: Heap, room: int, stack: seq<LVal>, kinds: seq<ParamKind>, n: nat, i: nat)
    requires Closed(h) && AllRefsIn(stack, h.Keys) && i < n <= |kinds|
    requires Args(c, h, room, stack, kinds, n).Ok?
    ensures SlotOf(stack, i + 1).Some? ==> RefsIn(SlotOf(stack, i + 1).value, h.Keys)
    ensures ArgValue(c, h, room, SlotOf(stack, i + 1), kinds[i]) == Ok(Args(c, h, room, stack, kinds, n).value[i])
  {
    SlotRefsIn(stack, i + 1, h.Keys);
    SlotRefsIn(stack, n, h.Keys);
    if i < n - 1 {
      ArgsAt(c, h, room, stack, kinds, n - 1, i);
    }
  }

  lemma SlotRefsIn(stack: seq<LVal>, index: int, keys: set<Ref>)
    requires AllRefsIn(stack, keys)
    ensures SlotOf(stack, index).Some? ==> RefsIn(SlotOf(stack, index).value, keys)
  {
    if 0 < index <= |stack| {
      assert SlotOf(stack, index).value == stack[index - 1];
    } else if -|stack| <= index < 0 {
      assert SlotOf(stack, index).value == stack[|stack| + index];
    }
  }

  /** When the pulls fail, it is with the error of the first argument that does not convert. */
  lemma {:induction false} ArgsFirstError(c: Coercion, h: Heap, room: int, stack: seq<LVal>, kinds: seq<ParamKind>, n: nat)
    requires Closed(h) && AllRefsIn(stack, h.Keys) && n <= |kinds|
    requires Args(c, h, room, stack, kinds, n).Err?
    ensures exists j :: 0 <= j < n &&
                        (forall i :: 0 <= i < j ==> ArgValue(c, h, room, SlotOf(stack, i + 1), kinds[i]).Ok?) &&
                        ArgValue(c, h, room, SlotOf(stack, j + 1), kinds[j]) == Err(Args(c, h, room, stack, kinds, n).error)
  {
    SlotRefsIn(stack, n, h.Keys);
    if Args(c, h, room, stack, kinds, n - 1).Err? {
      ArgsFirstError(c, h, room, stack, kinds, n - 1);
    } else {
      var j := n - 1;
      forall i | 0 <= i < j ensures ArgValue(c, h, room, SlotOf(stack, i + 1), kinds[i]).Ok? {
        ArgsAt(c, h, room, stack, kinds, j, i);
      }
    }
  }

  /** The slot after its pull: `lua_tostring` rewrites a number pulled as a string into its text. */
  function AfterPull(c: Coercion, v: LVal, kind: ParamKind): LVal {
    if kind == KString && v.LNumber? then LString(c.toText(v.n)) else v
  }

  /** The stack after the first `n` pulls succeeded: only slots of string parameters that held numbers changed. */
  function Rewritten(c: Coercion, stack: seq<LVal>, kinds: seq<ParamKind>, n: nat): (s: seq<LVal>)
    requires n <= |kinds|
    ensures |s| == |stack|
  {
    if n == 0 then stack
    else
      var s := Rewritten(c, stack, kinds, n - 1);
      if n <= |stack| then s[n - 1 := AfterPull(c, stack[n - 1], kinds[n - 1])] else s
  }

  /** Each slot of the rewritten stack: rewritten if its parameter was pulled, unchanged otherwise. */
  lemma {:induction false} RewrittenAt(c: Coercion, stack: seq<LVal>, kinds: seq<ParamKind>, n: nat, j: nat)
    requires n <= |kinds| && j < |stack|
    ensures Rewritten(c, stack, kinds, n)[j] == if j < n then AfterPull(c, stack[j], kinds[j]) else stack[j]
  {
    if n > 0 {
      RewrittenAt(c, stack, kinds, n - 1, j);
    }
  }

  /** `GetStackVar<T>()(state, index)` for the kind, at a positive index. */
  method PullArg(e: Engine, index: int, kind: ParamKind, ghost h: Heap, ghost room: int, ghost slot: Option<LVal>)
    returns (r: Result<HostValue>)
    requires e.Valid() && index > 0
    requires h == e.heap && room == e.config.capacity - |e.stack| && slot == e.Slot(index)
    modifies e
    ensures e.Valid() && e.OnlyStack()
    ensures Closed(h) && (slot.Some? ==> RefsIn(slot.value, h.Keys))
    ensures r == ArgValue(e.config.coercion, h, room, slot, kind)
    ensures r.Ok? ==> e.stack == if index <= |old(e.stack)|
                                 then old(e.stack)[index - 1 := AfterPull(e.config.coercion, old(e.stack)[index - 1], kind)]
                                 else old(e.stack)
  {
    HeapOkClosed(e.heap, e.nextRef);
    if e.Slot(index).Some? {
      e.SlotRefs(index);
    }
    ghost var s0 := e.stack;
    if kind == KString {
      r := PullStringArg(e, index, h, room, slot);
    } else {
      if kind == KObject {
        r := PullObjectArg(e, index, h, room, slot);
      } else if kind == KTable {
        r := PullTableArg(e, index, h, room, slot);
      } else {
        // The number, integer, function and boolean pulls only read the slot.
        r := ArgValue(e.config.coercion, e.heap, e.config.capacity - |e.stack|, e.Slot(index), kind);
      }
      assert index <= |s0| ==> s0[index - 1 := AfterPull(e.config.coercion, s0[index - 1], kind)] == s0;
    }
  }

  /** `GetStackVar<Object>` as an argument pull: the slot is left as it was. */
  method PullObjectArg(e: Engine, index: int, ghost h: Heap, ghost room: int, ghost slot: Option<LVal>)
    returns (r: Result<HostValue>)
    requires e.Valid() && index > 0
    requires h == e.heap && room == e.config.capacity - |e.stack| && slot == e.Slot(index)
    requires Closed(h) && (slot.Some? ==> RefsIn(slot.value, h.Keys))
    modifies e
    ensures e.Valid() && e.OnlyStack()
    ensures r == ArgValue(e.config.coercion, h, room, slot, KObject)
    ensures r.Ok? ==> e.stack == old(e.stack)
  {
    var o := PullObject(e, index, {}, MaxTableRecursion);
    r := ObjectArg(o);
  }

  /** `GetStackVar<LuaTable>` as an argument pull: the slot is left as it was. */
  method PullTableArg(e: Engine, index: int, ghost h: Heap, ghost room: int, ghost slot: Option<LVal>)
    returns (r: Result<HostValue>)
    requires e.Valid() && index > 0
    requires h == e.heap && room == e.config.capacity - |e.stack| && slot == e.Slot(index)
    requires Closed(h) && (slot.Some? ==> RefsIn(slot.value, h.Keys))
    modifies e
    ensures e.Valid() && e.OnlyStack()
    ensures r == ArgValue(e.config.coercion, h, room, slot, KTable)
    ensures r.Ok? ==> e.stack == old(e.stack)
  {
    // `GetStackVar<LuaTable>` pulls an Object and asks it for its table.
    var o := PullObject(e, index, {}, MaxTableRecursion);
    r := TableArg(o);
  }

  /** `GetStackVar<LuaString>` as an argument pull: a number slot is rewritten as its text. */
  method PullStringArg(e: Engine, index: int, ghost h: Heap, ghost room: int, ghost slot: Option<LVal>)
    returns (r: Result<HostValue>)
    requires e.Valid() && index > 0
    requires h == e.heap && room == e.config.capacity - |e.stack| && slot == e.Slot(index)
    requires Closed(h) && (slot.Some? ==> RefsIn(slot.value, h.Keys))
    modifies e
    ensures e.Valid() && e.OnlyStack()
    ensures r == ArgValue(e.config.coercion, h, room, slot, KString)
    ensures r.Ok? ==> e.stack == if index <= |old(e.stack)|
                                 then old(e.stack)[index - 1 := AfterPull(e.config.coercion, old(e.stack)[index - 1], KString)]
                                 else old(e.stack)
  {
    var s := PullStringAt(e, index);
    r := match s case Ok(x) => Ok(HString(x)) case Err(x) => Err(x);
  }

  /** `CallPrepareArgs<N, Args...>()(state, 1)`: every declared argument, in order; none for an empty list. */
  method PrepareArgs(e: Engine, kinds: seq<ParamKind>) returns (r: Result<seq<HostValue>>)
    requires e.Valid()
    modifies e
    ensures e.Valid() && e.OnlyStack()
    ensures Closed(old(e.heap)) && AllRefsIn(old(e.stack), old(e.heap).Keys)
    ensures r == Args(e.config.coercion, old(e.heap), e.config.capacity - |old(e.stack)|, old(e.stack), kinds, |kinds|)
    ensures r.Ok? ==> e.stack == Rewritten(e.config.coercion, old(e.stack), kinds, |kinds|)
  {
    HeapOkClosed(e.heap, e.nextRef);
    ghost var h := e.heap;
    ghost var s0 := e.stack;
    ghost var c := e.config.coercion;
    ghost var room := e.config.capacity - |s0|;
    var args: seq<HostValue> := [];
    var i := 0;
    while i < |kinds|
      invariant 0 <= i <= |kinds| && Closed(h) && AllRefsIn(s0, h.Keys)
      invariant e.Valid() && e.heap == h && e.nextRef == old(e.nextRef)
      invariant e.loaded == old(e.loaded) && e.openers == old(e.openers) && e.closed == old(e.closed)
      invariant e.stack == Rewritten(c, s0, kinds, i)
      invariant Args(c, h, room, s0, kinds, i) == Ok(args)
    {
      if i < |s0| {
        RewrittenAt(c, s0, kinds, i, i);
      }
      assert e.Slot(i + 1) == SlotOf(s0, i + 1);
      SlotRefsIn(s0, i + 1, h.Keys);
      ghost var pre := e.stack;
      var a := PullArg(e, i + 1, kinds[i], h, room, SlotOf(s0, i + 1));
      if a.Err? {
        ArgsFail(c, h, room, s0, kinds, i, args, a.error);
        return Err(a.error);
      }
      ArgsStep(c, h, room, s0, kinds, i, args, a.value);
      RewrittenStep(c, s0, kinds, i, pre, e.stack);
      args := args + [a.value];
      i := i + 1;
    }
    r := Ok(args);
  }

  /** One more successful pull extends the rewriting by the slot of its parameter. */
  lemma RewrittenStep(c: Coercion, stack: seq<LVal>, kinds: seq<ParamKind>, i: nat, before: seq<LVal>, after: seq<LVal>)
    requires i < |kinds| && before == Rewritten(c, stack, kinds, i)
    requires after == if i + 1 <= |before| then before[i := AfterPull(c, before[i], kinds[i])] else before
    ensures after == Rewritten(c, stack, kinds, i + 1)
  {
    if i < |stack| {
      RewrittenAt(c, stack, kinds, i, i);
    }
  }

  lemma ArgsStep(c: Coercion, h: Heap, room: int, stack: seq<LVal>, kinds: seq<ParamKind>, i: nat, args: seq<HostValue>, v: HostValue)
    requires Closed(h) && AllRefsIn(stack, h.Keys) && i < |kinds|
    requires Args(c, h, room, stack, kinds, i) == Ok(args)
    requires SlotOf(stack, i + 1).Some? ==> RefsIn(SlotOf(stack, i + 1).value, h.Keys)
    requires ArgValue(c, h, room, SlotOf(stack, i + 1), kinds[i]) == Ok(v)
    ensures Args(c, h, room, stack, kinds, i + 1) == Ok(args + [v])
  {
  }

  lemma ArgsFail(c: Coercion, h: Heap, room: int, stack: seq<LVal>, kinds: seq<ParamKind>, i: nat, args: seq<HostValue>, x: Exception)
    requires Closed(h) && AllRefsIn(stack, h.Keys) && i < |kinds|
    requires Args(c, h, room, stack, kinds, i) == Ok(args)
    requires SlotOf(stack, i + 1).Some? ==> RefsIn(SlotOf(stack, i + 1).value, h.Keys)
    requires ArgValue(c, h, room, SlotOf(stack, i + 1), kinds[i]) == Err(x)
    ensures Args(c, h, room, stack, kinds, |kinds|) == Err(x)
  {
    assert Args(c, h, room, stack, kinds, i + 1) == Err(x);
    ArgsStop(c, h, room, stack, kinds, i + 1);
  }

  /** Once a pull has failed, `prepareArgs` fails with its error. */
  lemma {:induction false} ArgsStop(c: Coercion, h: Heap, room: int, stack: seq<LVal>, kinds: seq<ParamKind>, n: nat)
    requires Closed(h) && AllRefsIn(stack, h.Keys) && 0 < n <= |kinds|
    requires Args(c, h, room, stack, kinds, n).Err?
    ensures Args(c, h, room, stack, kinds, |kinds|) == Args(c, h, room, stack, kinds, n)
    decreases |kinds| - n
  {
    if n < |kinds| {
      assert Args(c, h, room, stack, kinds, n + 1) == Args(c, h, room, stack, kinds, n);
      ArgsStop(c, h, room, stack, kinds, n + 1);
    }
  }

  // Pushing the results

  /** `pushVar` of a host value: `PushVar<T>` for its type. */
  method PushValue(e: Engine, v: HostValue) returns (r: Result<()>)
    requires e.Valid()
    modifies e
    ensures e.Valid() && Extends(old(e.heap), e.heap)
    ensures e.loaded == old(e.loaded) && e.openers == old(e.openers) && e.closed == old(e.closed)
    ensures |e.stack| >= |old(e.stack)| && e.stack[..|old(e.stack)|] == old(e.stack)
    ensures r.Ok? ==> |e.stack| == |old(e.stack)| + 1 && Encodes(e.heap, old(e.heap).Keys, e.stack[|old(e.stack)|], AsObject(v))
    ensures r.Err? ==> r.error == OverflowError || r.error == LuaError("table index is nil")
  {
    match v
    case HObject(o) => r := PushObject(e, o);
    case HNumber(n) => r := PushNumber(e, n);
    case HInteger(i) => r := PushInteger(e, i);
    case HString(s) => r := PushString(e, s);
    case HTable(t) => r := PushTable(e, t);
    case HFunction(f) => r := PushFunction(e, f);
    case HBoolean(b) => r := PushBoolean(e, b);
  }

  /** The Objects a host result stands for, in the order they are pushed. */
  function Results(res: HostResult): (os: seq<Object>)
    ensures res.NoResult? <==> os == [] && !res.Many?
    ensures res.One? ==> os == [AsObject(res.value)]
    ensures res.Many? ==> os == res.values
  {
    match res
    case NoResult => []
    case One(v) => [AsObject(v)]
    case Many(vs) => vs
  }

  /** Each value of `vals` is what `pushVar` leaves for the corresponding Object. */
  ghost predicate AllEncode(h: Heap, avoid: set<Ref>, vals: seq<LVal>, os: seq<Object>) {
    |vals| == |os| && forall j :: 0 <= j < |vals| ==> Encodes(h, avoid, vals[j], os[j])
  }

  /**
   * `PushReturnValuesIfNotVoid` and `PushReturnValues`: nothing for `void`,
   * one value for a single result, and the elements of a vector in index
   * order; the count reported is the number of values pushed.
   */
  method PushResults(e: Engine, res: HostResult) returns (r: Result<nat>)
    requires e.Valid()
    modifies e
    ensures e.Valid() && Extends(old(e.heap), e.heap)
    ensures e.loaded == old(e.loaded) && e.openers == old(e.openers) && e.closed == old(e.closed)
    ensures |e.stack| >= |old(e.stack)| && e.stack[..|old(e.stack)|] == old(e.stack)
    ensures res.NoResult? ==> r == Ok(0) && e.stack == old(e.stack)
    ensures r.Ok? ==> r.value == |Results(res)| && |e.stack| == |old(e.stack)| + r.value &&
                      AllEncode(e.heap, old(e.heap).Keys, e.stack[|old(e.stack)|..], Results(res))
    ensures r.Err? ==> r.error == OverflowError || r.error == LuaError("table index is nil")
  {
    ghost var s0 := e.stack;
    ghost var keys := e.heap.Keys;
    match res
    case NoResult =>
      r := Ok(0);
      assert e.stack[|s0|..] == [];
    case One(v) =>
      var p := PushValue(e, v);
      if p.Err? {
        return Err(p.error);
      }
      r := Ok(1);
      assert e.stack[|s0|..] == [e.stack[|s0|]];
    case Many(vs) =>
      var i := 0;
      while i < |vs|
        invariant 0 <= i <= |vs|
        invariant e.Valid() && Extends(old(e.heap), e.heap)
        invariant e.loaded == old(e.loaded) && e.openers == old(e.openers) && e.closed == old(e.closed)
        invariant |e.stack| == |s0| + i && e.stack[..|s0|] == s0
        invariant AllEncode(e.heap, keys, e.stack[|s0|..], vs[..i])
      {
        ghost var hb := e.heap;
        ghost var sb := e.stack;
        var p := PushObject(e, vs[i]);
        if p.Err? {
          PrefixOfPrefix(e.stack, sb, s0);
          return Err(p.error);
        }
        ResultAppended(hb, e.heap, keys, sb, e.stack, s0, vs, i);
        i := i + 1;
      }
      assert vs[..i] == vs;
      r := Ok(|vs|);
  }

  /** The loop of `PushReturnValues<std::vector<Object>>` keeps the values pushed so far encoded. */
  lemma ResultAppended(hb: Heap, h: Heap, keys: set<Ref>, sb: seq<LVal>, s: seq<LVal>, s0: seq<LVal>, vs: seq<Object>, i: nat)
    requires i < |vs| && keys <= hb.Keys && Extends(hb, h)
    requires |sb| == |s0| + i && sb[..|s0|] == s0
    requires AllEncode(hb, keys, sb[|s0|..], vs[..i])
    requires |s| == |sb| + 1 && s[..|sb|] == sb && Encodes(h, hb.Keys, s[|sb|], vs[i])
    ensures s[..|s0|] == s0
    ensures AllEncode(h, keys, s[|s0|..], vs[..i + 1])
  {
    PrefixOfPrefix(s, sb, s0);
    var old_vals := sb[|s0|..];
    forall j | 0 <= j < i ensures Encodes(h, keys, old_vals[j], vs[..i][j]) {
      EncodesFrame(hb, h, keys, old_vals[j], vs[..i][j]);
    }
    EncodesAvoidLess(h, keys, hb.Keys, s[|sb|], vs[i]);
    SuffixSnoc(s, sb, |s0|);
    TakeSnoc(vs, i);
  }

  lemma SuffixSnoc<T>(s: seq<T>, sb: seq<T>, k: nat)
    requires k <= |sb| && |s| == |sb| + 1 && s[..|sb|] == sb
    ensures s[k..] == sb[k..] + [s[|sb|]]
  {
    assert s == sb + [s[|sb|]];
  }

  // The adapter

  /** The message `registeredCFunction` raises for an exception it caught. */
  function Contained(x: Exception): string {
    if x == TypeMismatch then "Native function: type mismatch" else "Native function: unknown exception"
  }

  /** Both messages are plain C strings. */
  lemma ContainedIsCString(x: Exception)
    ensures CString(Contained(x)) == Contained(x)
  {
    var m := Contained(x);
    assert forall i :: 0 <= i < |m| ==> m[i] != '\0';
  }

  /** `throwLuaError`: the message is pushed only if `lua_checkstack` grants a slot; then `lua_error`. */
  method ThrowLuaError(e: Engine, message: string) returns (out: AdapterOutcome)
    requires e.Valid()
    modifies e
    ensures e.Valid() && e.OnlyStack()
    ensures out.Raises? <==> |old(e.stack)| + 1 <= e.config.capacity
    ensures out.Raises? ==> out.message == CString(message) && e.stack == old(e.stack) + [LString(CString(message))]
    ensures out.RaisesTop? ==> e.stack == old(e.stack)
    ensures !out.Returns?
  {
    if e.CheckStack(1) {
      e.PushString(message);
      out := Raises(CString(message));
    } else {
      out := RaisesTop;
    }
  }

  /** The adapter caught `x`: its message, or the bare `lua_error` when there is no room for it. */
  predicate Caught(out: AdapterOutcome, x: Exception) {
    out == Raises(Contained(x)) || out == RaisesTop
  }

  /** The `catch` clauses of `registeredCFunction`: the exception becomes a Lua error with its fixed message. */
  method ThrowContained(e: Engine, x: Exception) returns (out: AdapterOutcome)
    requires e.Valid()
    modifies e
    ensures e.Valid() && e.OnlyStack()
    ensures Caught(out, x)
  {
    ContainedIsCString(x);
    out := ThrowLuaError(e, Contained(x));
  }

  /**
   * What pushing the native function's result `res` onto `before` did: `void`
   * reports no results and leaves the stack; a successful push reports as
   * many results as it left encoded above `before`; and a failed push is the
   * engine's nil-key error or a caught `overflow_error`.
   */
  ghost predicate Responded(res: HostResult, out: AdapterOutcome, before: seq<LVal>, keys: set<Ref>, stack: seq<LVal>, h: Heap) {
    (res.NoResult? ==> out == Returns(0) && stack == before) &&
    (out.Returns? ==>
       out.count == |Results(res)| && |stack| == |before| + out.count && stack[..|before|] == before &&
       AllEncode(h, keys, stack[|before|..], Results(res))) &&
    (out.Returns? || out == Raises("table index is nil") || Caught(out, OverflowError))
  }

  /** The end of `registeredCFunction` once the native function returned `res`. */
  method Respond(e: Engine, res: HostResult) returns (out: AdapterOutcome)
    requires e.Valid()
    modifies e
    ensures e.Valid() && Extends(old(e.heap), e.heap)
    ensures e.loaded == old(e.loaded) && e.openers == old(e.openers) && e.closed == old(e.closed)
    ensures Responded(res, out, old(e.stack), old(e.heap).Keys, e.stack, e.heap)
  {
    var n := PushResults(e, res);
    if n.Err? {
      if n.error.LuaError? {
        out := Raises(n.error.message);
      } else {
        out := ThrowContained(e, n.error);
      }
    } else {
      out := Returns(n.value);
    }
  }

  /**
   * `registeredCFunction<R, Args...>` with the native function `f` (which
   * the source reads from the closure's first upvalue) and the arguments as
   * the engine's stack. The argument count is checked after the pulls. A Lua
   * error that the engine raises while the results are pushed is not a C++
   * exception and leaves the adapter with the engine's own message.
   */
  method Registered(e: Engine, kinds: seq<ParamKind>, f: NativeFunction) returns (out: AdapterOutcome)
    requires e.Valid()
    modifies e
    ensures e.Valid() && Extends(old(e.heap), e.heap)
    ensures e.loaded == old(e.loaded) && e.openers == old(e.openers) && e.closed == old(e.closed)
    ensures Closed(old(e.heap)) && AllRefsIn(old(e.stack), old(e.heap).Keys)
    ensures |kinds| != |old(e.stack)| ==> !out.Returns?
    ensures
      var pulled := Args(e.config.coercion, old(e.heap), e.config.capacity - |old(e.stack)|, old(e.stack), kinds, |kinds|);
      if pulled.Err? then Caught(out, pulled.error)
      else if |kinds| != |old(e.stack)| then Caught(out, TypeMismatch)
      else match f(pulled.value)
        case Threw(x) => Caught(out, x)
        case Returned(res) =>
          Responded(res, out, Rewritten(e.config.coercion, old(e.stack), kinds, |kinds|), old(e.heap).Keys, e.stack, e.heap)
  {
    HeapOkClosed(e.heap, e.nextRef);
    var args := PrepareArgs(e, kinds);
    if args.Err? {
      out := ThrowContained(e, args.error);
      return;
    }
    if |kinds| != |e.stack| {
      out := ThrowContained(e, TypeMismatch);
      return;
    }
    match f(args.value)
    case Threw(x) =>
      out := ThrowContained(e, x);
    case Returned(res) =>
      ghost var s1 := e.stack;
      ghost var keys := e.heap.Keys;
      assert s1 == Rewritten(e.config.coercion, old(e.stack), kinds, |kinds|) && keys == old(e.heap).Keys;
      out := Respond(e, res);
      assert Responded(res, out, s1, keys, e.stack, e.heap);
  }

  // Partners of the pulls and pushes

  /** A scalar host value pushed by the adapter is pulled back unchanged for its own kind. */
  lemma PushedScalarPullsBack(c: Coercion, h: Heap, room: int, v: HostValue, slot: LVal)
    requires Closed(h) && !v.HObject? && !v.HTable?
    requires v.HString? ==> '\0' !in v.s
    requires Encodes(h, {}, slot, AsObject(v))
    ensures RefsIn(slot, h.Keys)
    ensures ArgValue(c, h, room, Some(slot), KindOf(v)) == Ok(v)
  {
    if v.HInteger? {
      TruncOfInteger(v.i);
    }
  }

  /**
   * Pulling as an Object and pulling with a typed kind agree on the values
   * both accept without a coercion: a string read as a string, and anything
   * but a string read as a number, an integer, a function or a boolean.
   */
  lemma TypedPullsAgreeWithObject(c: Coercion, h: Heap, room: int, slot: LVal, kind: ParamKind)
    requires Closed(h) && RefsIn(slot, h.Keys) && kind in {KNumber, KInteger, KString, KFunction, KBoolean}
    requires kind == KString <==> slot.LString?
    requires ArgValue(c, h, room, Some(slot), kind).Ok?
    ensures Convert(h, room, Some(slot), {}, MaxTableRecursion).Ok?
    ensures AsObject(ArgValue(c, h, room, Some(slot), kind).value) ==
            Convert(h, room, Some(slot), {}, MaxTableRecursion).value
  {
    if kind == KInteger {
      var n := slot.n;
      assert Trunc(n) as real == n;
    }
  }

  /**
   * The coercions the typed pulls make and the Object pull does not: a
   * number read as a string becomes its text, and a string the engine reads
   * as a number becomes that number.
   */
  lemma CoercedPullsDiffer(c: Coercion, h: Heap, room: int, slot: LVal, kind: ParamKind)
    requires Closed(h) && RefsIn(slot, h.Keys)
    requires (kind == KString && slot.LNumber?) || (kind == KNumber && slot.LString? && c.toNumber(slot.s).Some?)
    ensures kind == KString ==> ArgValue(c, h, room, Some(slot), kind) == Ok(HString(CString(c.toText(slot.n))))
    ensures kind == KNumber ==> ArgValue(c, h, room, Some(slot), kind) == Ok(HNumber(c.toNumber(slot.s).value))
    ensures Convert(h, room, Some(slot), {}, MaxTableRecursion).Ok?
    ensures AsObject(ArgValue(c, h, room, Some(slot), kind).value).GetType() !=
            Convert(h, room, Some(slot), {}, MaxTableRecursion).value.GetType()
  {
  }
}
