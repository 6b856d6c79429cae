/**
 * The host-side value type `lua::Object`: a tagged union of nil, number,
 * string, table, C function and boolean, together with its named
 * constructors, checked accessors, kind tests and the total order and
 * equality that let Objects serve as keys of a table (a `std::map`).
 */
module LuaObject {
  import opened Options

  /** Address of a C function (`lua_CFunction`); 0 is the null pointer. */
  type FuncRef = nat

  const NullFunction: FuncRef := 0

  /** Kind tags, as `getType()` reports them. */
  const NIL := 0
  const NUMBER := 1
  const STRING := 2
  const TABLE := 3
  const FUNCTION := 4
  const BOOLEAN := 5
  /** Declared kinds that no Object ever carries. */
  const USERDATA := 6
  const THREAD := 7
  const WEAK_TABLE := 8

  /**
   * A table is an ordered map from Object to Object; its entries are kept in
   * ascending key order (see `SortedKeys`), as a `std::map` keeps them.
   */
  datatype Object =
    | Nil
    | Number(num: real)
    | String(str: string)
    | Table(entries: seq<Pair>)
    | Function(func: FuncRef)
    | Boolean(boolean: bool)
  {
    function GetType(): (t: int)
      ensures NIL <= t <= BOOLEAN
    {
      match this
      case Nil => NIL
      case Number(_) => NUMBER
      case String(_) => STRING
      case Table(_) => TABLE
      case Function(_) => FUNCTION
      case Boolean(_) => BOOLEAN
    }

    predicate IsNil() { GetType() == NIL }
    predicate IsNumber() { GetType() == NUMBER }
    predicate IsString() { GetType() == STRING }
    predicate IsTable() { GetType() == TABLE }
    predicate IsFunction() { GetType() == FUNCTION }
    predicate IsBoolean() { GetType() == BOOLEAN }

    /** A number whose value survives the round trip through the C `int` cast. */
    predicate IsInteger() {
      GetType() == NUMBER && num == Trunc(num) as real
    }

    function GetNumber(): Result<real> {
      if GetType() != NUMBER then Err(TypeMismatch) else Ok(num)
    }

    function GetInteger(): Result<int> {
      if !IsInteger() then Err(TypeMismatch) else Ok(Trunc(num))
    }

    function GetString(): Result<string> {
      if GetType() != STRING then Err(TypeMismatch) else Ok(str)
    }

    function GetTable(): Result<seq<Pair>> {
      if GetType() != TABLE then Err(TypeMismatch) else Ok(entries)
    }

    function GetFunction(): Result<FuncRef> {
      if GetType() != FUNCTION then Err(TypeMismatch) else Ok(func)
    }

    function GetBoolean(): Result<bool> {
      if GetType() != BOOLEAN then Err(TypeMismatch) else Ok(boolean)
    }
  }

  datatype Pair = Pair(key: Object, value: Object)

  /** The exceptions the library throws, and the errors the engine raises on its own. */
  datatype Exception =
    | TypeMismatch
    | TableTooDeep
      /** `compile_error`: the engine's error value, or None when the file could not be read. */
    | CompileError(detail: Option<Object>)
      /** `script_error` carrying the error value of a failed protected call. */
    | ScriptError(err: Object)
    | UninitializedResource
    | InvalidArgument
      /** `std::overflow_error`: the engine refused to grow its stack. */
    | OverflowError
      /** An error the engine raises outside any protected call. */
    | LuaError(message: string)
      /** Any other exception, thrown by host code. */
    | OtherException

  datatype Result<T> = Ok(value: T) | Err(error: Exception)

  /** `static_cast<int>` of a number: truncation toward zero. */
  function Trunc(x: real): (i: int)
    ensures 0.0 <= x ==> i as real <= x < i as real + 1.0
    ensures x < 0.0 ==> i as real - 1.0 < x <= i as real
  {
    if 0.0 <= x then x.Floor else -((-x).Floor)
  }

  lemma TruncOfInteger(i: int)
    ensures Trunc(i as real) == i
  {
    if i < 0 {
      assert (-(i as real)).Floor == -i;
    }
  }

  // Named constructors; each one's default argument is the source's.

  function MakeNil(): (o: Object)
    ensures o.IsNil() && o.GetNumber().Err? && o.GetString().Err? && o.GetTable().Err?
    ensures o.GetFunction().Err? && o.GetBoolean().Err? && o.GetInteger().Err?
  {
    Nil
  }

  function MakeNumber(d: real := 0.0): (o: Object)
    ensures o.IsNumber() && o.GetNumber() == Ok(d)
    ensures o.GetString().Err? && o.GetTable().Err? && o.GetFunction().Err? && o.GetBoolean().Err?
    ensures o.IsInteger() <==> d == Trunc(d) as real
  {
    Number(d)
  }

  function MakeInteger(i: int := 0): (o: Object)
    ensures o.IsNumber() && o.IsInteger() && o.GetInteger() == Ok(i)
    ensures o.GetNumber() == Ok(i as real)
    ensures o.GetString().Err? && o.GetTable().Err? && o.GetFunction().Err? && o.GetBoolean().Err?
  {
    TruncOfInteger(i);
    Number(i as real)
  }

  function MakeString(s: string := ""): (o: Object)
    ensures o.IsString() && o.GetString() == Ok(s)
    ensures o.GetNumber().Err? && o.GetInteger().Err? && o.GetTable().Err?
    ensures o.GetFunction().Err? && o.GetBoolean().Err?
  {
    String(s)
  }

  function MakeTable(m: seq<Pair> := []): (o: Object)
    ensures o.IsTable() && o.GetTable() == Ok(m)
    ensures o.GetNumber().Err? && o.GetInteger().Err? && o.GetString().Err?
    ensures o.GetFunction().Err? && o.GetBoolean().Err?
  {
    Table(m)
  }

  function MakeFunction(f: FuncRef): (o: Object)
    ensures o.IsFunction() && o.GetFunction() == Ok(f)
    ensures o.GetNumber().Err? && o.GetInteger().Err? && o.GetString().Err?
    ensures o.GetTable().Err? && o.GetBoolean().Err?
  {
    Function(f)
  }

  function MakeBoolean(b: bool := false): (o: Object)
    ensures o.IsBoolean() && o.GetBoolean() == Ok(b)
    ensures o.GetNumber().Err? && o.GetInteger().Err? && o.GetString().Err?
    ensures o.GetTable().Err? && o.GetFunction().Err?
  {
    Boolean(b)
  }

  // Termination measure for the comparison: how deeply tables nest.

  ghost function Depth(o: Object): nat
    decreases o, 1
  {
    match o
    case Table(es) => 1 + EntriesDepth(es, 0)
    case _ => 0
  }

  /** The greatest depth of a key or value among `es[i..]`. */
  ghost function EntriesDepth(es: seq<Pair>, i: nat): nat
    requires i <= |es|
    decreases Table(es), 0, |es| - i
  {
    if i == |es| then 0
    else
      var d := if Depth(es[i].key) < Depth(es[i].value) then Depth(es[i].value) else Depth(es[i].key);
      var rest := EntriesDepth(es, i + 1);
      if d < rest then rest else d
  }

  lemma EntriesDepthBound(es: seq<Pair>, i: nat, j: nat)
    requires i <= j < |es|
    ensures Depth(es[j].key) <= EntriesDepth(es, i) && Depth(es[j].value) <= EntriesDepth(es, i)
    decreases j - i
  {
    if i < j {
      EntriesDepthBound(es, i + 1, j);
    }
  }

  /** `std::string` ordering: lexicographic on character codes. */
  function StringLess(s: string, t: string): bool {
    if |t| == 0 then false
    else if |s| == 0 then true
    else if s[0] != t[0] then s[0] < t[0]
    else StringLess(s[1..], t[1..])
  }

  /**
   * `operator<`: Objects of the same kind compare by payload (tables through
   * the map ordering), Objects of different kinds by their kind tag.
   */
  function Less(a: Object, b: Object): bool
    decreases Depth(a) + Depth(b), 1
  {
    if a.GetType() == b.GetType() then
      match a
      case Nil => false
      case Number(x) => x < b.num
      case String(s) => StringLess(s, b.str)
      case Table(s) => TableLess(s, b.entries, 0)
      case Function(f) => f < b.func
      case Boolean(x) => !x && b.boolean
    else a.GetType() < b.GetType()
  }

  /**
   * The `std::map` ordering on `s[i..]` and `t[i..]`: lexicographic over the
   * entry sequences, entries compared as `std::pair` (key first, then value).
   */
  function TableLess(s: seq<Pair>, t: seq<Pair>, i: nat): bool
    requires i <= |s| && i <= |t|
    decreases Depth(Table(s)) + Depth(Table(t)), 0, |s| - i
  {
    if i == |t| then false
    else if i == |s| then true
    else
      EntriesDepthBound(s, 0, i);
      EntriesDepthBound(t, 0, i);
      var p, q := s[i], t[i];
      if Less(p.key, q.key) || (!Less(q.key, p.key) && Less(p.value, q.value)) then true
      else if Less(q.key, p.key) || (!Less(p.key, q.key) && Less(q.value, p.value)) then false
      else TableLess(s, t, i + 1)
  }

  /** `operator==`: same kind and equal payload (tables: same size, equal entries in order). */
  function Equal(a: Object, b: Object): bool
    decreases a, 1
  {
    if a.GetType() == b.GetType() then
      match a
      case Nil => true
      case Number(x) => x == b.num
      case String(s) => s == b.str
      case Table(s) => |s| == |b.entries| && TableEqual(s, b.entries, 0)
      case Function(f) => f == b.func
      case Boolean(x) => x == b.boolean
    else false
  }

  function TableEqual(s: seq<Pair>, t: seq<Pair>, i: nat): bool
    requires i <= |s| == |t|
    decreases Table(s), 0, |s| - i
  {
    if i == |s| then true
    else Equal(s[i].key, t[i].key) && Equal(s[i].value, t[i].value) && TableEqual(s, t, i + 1)
  }

  function NotEqual(a: Object, b: Object): bool { !Equal(a, b) }

  function Greater(a: Object, b: Object): bool { Less(b, a) && !Equal(a, b) }

  function LessEq(a: Object, b: Object): bool { !Less(b, a) }

  function GreaterEq(a: Object, b: Object): bool { !Less(a, b) }

  /** Entry keys in strictly ascending order: the shape of every `std::map`. */
  ghost predicate SortedKeys(es: seq<Pair>) {
    forall i, j :: 0 <= i < j < |es| ==> Less(es[i].key, es[j].key)
  }
}
