/**
 * What the conversions between Objects and engine values compute, stated
 * as functions and relations on the engine's heap: the value `pushVar`
 * leaves for an Object (`Encodes`), the Object `GetStackVar<Object>` builds
 * from a stack slot (`Convert`), and the typed pulls.
 */
module MarshalSpec {
  import opened Options
  import opened LuaObject
  import opened ObjectOrder
  import opened ObjectTable
  import opened LuaEngine

  /** The build enables `LUA_THROW_TABLE_TOO_DEEP`: an exhausted budget throws instead of yielding nil. */
  const ThrowTableTooDeep := true

  /** The default nesting budget of `GetStackVar<Object>` and `GetStackVar<LuaTable>`. */
  const MaxTableRecursion := 8

  /** Every table's entries refer only to tables of the heap. */
  ghost predicate Closed(h: Heap) {
    forall r :: r in h ==> TableRefsIn(h[r], h.Keys)
  }

  lemma HeapOkClosed(h: Heap, next: Ref)
    requires HeapOk(h, next)
    ensures Closed(h)
  {
  }

  // Pulling

  /**
   * `GetStackVar<Object>` on a slot (None: an index past the top), with
   * `room` free stack slots, the ignore list and the nesting budget `level`.
   * The budget is checked first; a table needs two free slots for its
   * traversal, and its keys and values are converted with one level less and
   * an empty ignore list. C functions keep their address, Lua functions
   * become the null function, and threads and userdata become nil.
   */
  function Convert(h: Heap, room: int, slot: Option<LVal>, ignore: set<Object>, level: int): Result<Object>
    requires Closed(h) && (slot.Some? ==> RefsIn(slot.value, h.Keys))
    decreases if level > 0 then level else 0, 1
  {
    if level <= 0 then (if ThrowTableTooDeep then Err(TableTooDeep) else Ok(Nil))
    else match slot
      case None => Ok(Nil)
      case Some(v) => match v
        case LNil => Ok(Nil)
        case LNumber(n) => Ok(Number(n))
        case LString(s) => Ok(String(CString(s)))
        case LTable(r) =>
          if room < 2 then Err(OverflowError)
          else (match ConvertEntries(h, room - 2, h[r], ignore, level, |h[r]|)
            case Ok(es) => Ok(Table(es))
            case Err(e) => Err(e))
        case LBoolean(b) => Ok(Boolean(b))
        case LCFunction(f, _) => Ok(Function(f))
        case LLuaFunction(_) => Ok(Function(NullFunction))
        case _ => Ok(Nil)
  }

  /**
   * The traversal of the first `i` entries of a table: each key is converted,
   * skipped when ignored, then its value converted and skipped when ignored,
   * and otherwise assigned into the result.
   */
  function ConvertEntries(h: Heap, room: int, t: LTableContents, ignore: set<Object>, level: int, i: nat): (r: Result<seq<Pair>>)
    requires Closed(h) && TableRefsIn(t, h.Keys) && level > 0 && i <= |t|
    ensures r.Ok? ==> SortedKeys(r.value)
    decreases level, 0, i
  {
    if i == 0 then Ok([])
    else match ConvertEntries(h, room, t, ignore, level, i - 1)
      case Err(e) => Err(e)
      case Ok(acc) =>
        match Convert(h, room, Some(t[i - 1].key), {}, level - 1)
        case Err(e) => Err(e)
        case Ok(key) =>
          if key in ignore then Ok(acc)
          else match Convert(h, room, Some(t[i - 1].value), {}, level - 1)
            case Err(e) => Err(e)
            case Ok(value) => if value in ignore then Ok(acc) else Ok(Assign(acc, key, value))
  }

  /** Once the traversal fails, it fails with the same error to the end. */
  lemma {:induction false} ErrorPersists(h: Heap, room: int, t: LTableContents, ignore: set<Object>, level: int, i: nat, j: nat)
    requires Closed(h) && TableRefsIn(t, h.Keys) && level > 0 && i <= j <= |t|
    requires ConvertEntries(h, room, t, ignore, level, i).Err?
    ensures ConvertEntries(h, room, t, ignore, level, j) == ConvertEntries(h, room, t, ignore, level, i)
    decreases j - i
  {
    if i < j {
      ErrorStep(h, room, t, ignore, level, i);
      ErrorPersists(h, room, t, ignore, level, i + 1, j);
    }
  }

  lemma ErrorStep(h: Heap, room: int, t: LTableContents, ignore: set<Object>, level: int, i: nat)
    requires Closed(h) && TableRefsIn(t, h.Keys) && level > 0 && i < |t|
    requires ConvertEntries(h, room, t, ignore, level, i).Err?
    ensures ConvertEntries(h, room, t, ignore, level, i + 1) == ConvertEntries(h, room, t, ignore, level, i)
  {
  }

  /** `lua_isnumber` and `lua_tonumber`: a number, or a string the engine reads as one. */
  function NumberValue(c: Coercion, slot: Option<LVal>): Option<real> {
    match slot
    case Some(LNumber(n)) => Some(n)
    case Some(LString(s)) => c.toNumber(s)
    case _ => None
  }

  /** `GetStackVar<LuaNumber>`. */
  function PullNumber(c: Coercion, slot: Option<LVal>): (r: Result<real>)
    ensures r.Ok? <==> NumberValue(c, slot).Some?
    ensures r.Ok? ==> r.value == NumberValue(c, slot).value
    ensures r.Err? ==> r.error == TypeMismatch
  {
    match NumberValue(c, slot)
    case None => Err(TypeMismatch)
    case Some(n) => Ok(n)
  }

  /** `GetStackVar<LuaInteger>`: a number that the `int` cast keeps unchanged. */
  function PullInteger(c: Coercion, slot: Option<LVal>): (r: Result<int>)
    ensures r.Ok? <==> NumberValue(c, slot).Some? && NumberValue(c, slot).value == Trunc(NumberValue(c, slot).value) as real
    ensures r.Ok? ==> r.value as real == NumberValue(c, slot).value
    ensures r.Err? ==> r.error == TypeMismatch
  {
    match NumberValue(c, slot)
    case None => Err(TypeMismatch)
    case Some(n) =>
      var i := Trunc(n);
      if i as real != n then Err(TypeMismatch) else Ok(i)
  }

  /** `GetStackVar<LuaFunction>`: C functions only (`lua_iscfunction`). */
  function PullFunction(slot: Option<LVal>): (r: Result<FuncRef>)
    ensures r.Ok? <==> slot.Some? && slot.value.LCFunction?
    ensures r.Ok? ==> r.value == slot.value.f
    ensures r.Err? ==> r.error == TypeMismatch
  {
    match slot
    case Some(LCFunction(f, _)) => Ok(f)
    case _ => Err(TypeMismatch)
  }

  /** `GetStackVar<LuaBoolean>`: booleans only, no truthiness. */
  function PullBoolean(slot: Option<LVal>): (r: Result<bool>)
    ensures r.Ok? <==> slot.Some? && slot.value.LBoolean?
    ensures r.Ok? ==> r.value == slot.value.b
    ensures r.Err? ==> r.error == TypeMismatch
  {
    match slot
    case Some(LBoolean(b)) => Ok(b)
    case _ => Err(TypeMismatch)
  }

  /** `GetStackVar<LuaString>` before the slot is converted: strings and numbers, cut at the first NUL. */
  function PullString(c: Coercion, slot: Option<LVal>): (r: Result<string>)
    ensures r.Ok? <==> slot.Some? && (slot.value.LString? || slot.value.LNumber?)
    ensures r.Ok? ==> '\0' !in r.value
    ensures slot.Some? && slot.value.LString? ==> r == Ok(CString(slot.value.s))
    ensures slot.Some? && slot.value.LNumber? ==> r == Ok(CString(c.toText(slot.value.n)))
    ensures r.Err? ==> r.error == TypeMismatch
  {
    match ToStringResult(c, slot)
    case None => Err(TypeMismatch)
    case Some(s) => Ok(CString(s))
  }

  // Pushing

  /** The table `pushVar` builds from entries, one `lua_settable` per entry in order. */
  function Build(ps: seq<LPair>): LTableContents {
    if ps == [] then []
    else RawSet(Build(ps[..|ps| - 1]), ps[|ps| - 1].key, ps[|ps| - 1].value)
  }

  /**
   * `v` is what `pushVar` leaves on the stack for `o` in heap `h`; every table
   * it built is outside `avoid` (the tables that existed before).
   */
  ghost predicate Encodes(h: Heap, avoid: set<Ref>, v: LVal, o: Object)
    decreases o, 2
  {
    match o
    case Nil => v == LNil
    case Number(x) => v == LNumber(x)
    case String(s) => v == LString(CString(s))
    case Function(f) => v == LCFunction(f, [])
    case Boolean(b) => v == LBoolean(b)
    case Table(es) => v.LTable? && v.ref in h && v.ref !in avoid && EntriesEncoded(h, avoid, h[v.ref], es)
  }

  ghost predicate EntriesEncoded(h: Heap, avoid: set<Ref>, t: LTableContents, es: seq<Pair>)
    decreases Table(es), 1
  {
    exists ps: seq<LPair> :: PairsEncode(h, avoid, ps, es) && t == Build(ps)
  }

  ghost predicate PairsEncode(h: Heap, avoid: set<Ref>, ps: seq<LPair>, es: seq<Pair>)
    decreases Table(es), 0
  {
    |ps| == |es| &&
    forall i :: 0 <= i < |ps| ==> Encodes(h, avoid, ps[i].key, es[i].key) && Encodes(h, avoid, ps[i].value, es[i].value)
  }

  /** An encoding survives any change to the heap outside the tables it built. */
  lemma {:induction false} EncodesFrame(h: Heap, h': Heap, avoid: set<Ref>, v: LVal, o: Object)
    requires Encodes(h, avoid, v, o)
    requires forall r :: r in h && r !in avoid ==> r in h' && h'[r] == h[r]
    ensures Encodes(h', avoid, v, o)
    decreases o, 2
  {
    match o
    case Table(es) =>
      var ps: seq<LPair> :| PairsEncode(h, avoid, ps, es) && h[v.ref] == Build(ps);
      PairsFrame(h, h', avoid, ps, es);
    case _ =>
  }

  lemma {:induction false} PairsFrame(h: Heap, h': Heap, avoid: set<Ref>, ps: seq<LPair>, es: seq<Pair>)
    requires PairsEncode(h, avoid, ps, es)
    requires forall r :: r in h && r !in avoid ==> r in h' && h'[r] == h[r]
    ensures PairsEncode(h', avoid, ps, es)
    decreases Table(es), 0
  {
    forall i | 0 <= i < |ps| ensures Encodes(h', avoid, ps[i].key, es[i].key) && Encodes(h', avoid, ps[i].value, es[i].value) {
      EncodesFrame(h, h', avoid, ps[i].key, es[i].key);
      EncodesFrame(h, h', avoid, ps[i].value, es[i].value);
    }
  }

  /** An encoding that avoids more tables also avoids fewer. */
  lemma {:induction false} EncodesAvoidLess(h: Heap, avoid: set<Ref>, avoid': set<Ref>, v: LVal, o: Object)
    requires Encodes(h, avoid', v, o) && avoid <= avoid'
    ensures Encodes(h, avoid, v, o)
    decreases o, 2
  {
    match o
    case Table(es) =>
      var ps: seq<LPair> :| PairsEncode(h, avoid', ps, es) && h[v.ref] == Build(ps);
      PairsAvoidLess(h, avoid, avoid', ps, es);
    case _ =>
  }

  lemma {:induction false} PairsAvoidLess(h: Heap, avoid: set<Ref>, avoid': set<Ref>, ps: seq<LPair>, es: seq<Pair>)
    requires PairsEncode(h, avoid', ps, es) && avoid <= avoid'
    ensures PairsEncode(h, avoid, ps, es)
    decreases Table(es), 0
  {
    forall i | 0 <= i < |ps| ensures Encodes(h, avoid, ps[i].key, es[i].key) && Encodes(h, avoid, ps[i].value, es[i].value) {
      EncodesAvoidLess(h, avoid, avoid', ps[i].key, es[i].key);
      EncodesAvoidLess(h, avoid, avoid', ps[i].value, es[i].value);
    }
  }

  lemma EncodesRefs(h: Heap, avoid: set<Ref>, v: LVal, o: Object)
    requires Encodes(h, avoid, v, o)
    ensures RefsIn(v, h.Keys)
    ensures o != Nil ==> v != LNil
  {
  }
}
