/**
 * `lua::Object` as the storage the C++ class is: a kind tag and one payload
 * field per kind, of which only the one the tag names is meaningful. Copying
 * and moving update those fields in place; `Value` reads the tagged field
 * back as the `Object` value it stands for.
 */
module ObjectStorage {
  import opened LuaObject

  class ObjectVar {
    var kind: int
    var num: real
    var str: string
    var table: seq<Pair>
    var func: FuncRef
    var boolean: bool

    /** The tag always names one of the six kinds an Object can hold. */
    predicate Valid()
      reads this
    {
      NIL <= kind <= BOOLEAN
    }

    /** The Object the fields stand for: the payload the tag selects. */
    function Value(): (o: Object)
      reads this
      requires Valid()
      ensures o.GetType() == kind
    {
      if kind == NUMBER then Number(num)
      else if kind == STRING then String(str)
      else if kind == TABLE then Table(table)
      else if kind == FUNCTION then Function(func)
      else if kind == BOOLEAN then Boolean(boolean)
      else Nil
    }

    /** The default constructor: nil. */
    constructor ()
      ensures Valid() && Value() == Nil
    {
      kind := NIL;
    }

    /** Storage holding a given value (what the named constructors build). */
    constructor Of(o: Object)
      ensures Valid() && Value() == o
    {
      kind := o.GetType();
      match o
      case Nil =>
      case Number(d) => num := d;
      case String(s) => str := s;
      case Table(t) => table := t;
      case Function(f) => func := f;
      case Boolean(b) => boolean := b;
    }

    /** The copy constructor: starts as nil, then copies. */
    constructor CopyOf(rhs: ObjectVar)
      requires rhs.Valid()
      ensures Valid() && Value() == rhs.Value()
    {
      kind := NIL;
      new;
      Copy(rhs);
    }

    /** The move constructor: takes the value and leaves the source nil. */
    constructor MovedFrom(rhs: ObjectVar)
      requires rhs.Valid()
      modifies rhs
      ensures Valid() && Value() == old(rhs.Value())
      ensures rhs.Valid() && rhs.Value() == Nil
    {
      kind := rhs.kind;
      new;
      MoveFrom(rhs);
    }

    /**
     * `copy`: copies the payload field the source's tag names, then the tag;
     * the other payload fields keep whatever they held.
     */
    method Copy(rhs: ObjectVar)
      requires rhs.Valid()
      modifies this
      ensures Valid() && Value() == old(rhs.Value())
      ensures rhs == this || rhs.Value() == old(rhs.Value())
    {
      if rhs.kind == NUMBER {
        num := rhs.num;
      } else if rhs.kind == STRING {
        str := rhs.str;
      } else if rhs.kind == TABLE {
        table := rhs.table;
      } else if rhs.kind == FUNCTION {
        func := rhs.func;
      } else if rhs.kind == BOOLEAN {
        boolean := rhs.boolean;
      }
      kind := rhs.kind;
    }

    /** Copy assignment: a no-op on itself, otherwise `copy`. */
    method Assign(rhs: ObjectVar)
      requires rhs.Valid()
      modifies this
      ensures Valid() && Value() == old(rhs.Value())
      ensures rhs == this ==> unchanged(this)
      ensures rhs.Valid() && rhs.Value() == old(rhs.Value())
    {
      if rhs == this {
        return;
      }
      Copy(rhs);
    }

    /**
     * `moveFrom`: takes the tag and the payload (the string and the table are
     * moved out, which leaves them empty), then sets the source's tag to nil.
     */
    method MoveFrom(rhs: ObjectVar)
      requires rhs.Valid()
      modifies this, rhs
      ensures Valid() && rhs.Valid() && rhs.Value() == Nil
      ensures rhs != this ==> Value() == old(rhs.Value())
    {
      kind := rhs.kind;
      if kind == NUMBER {
        num := rhs.num;
      } else if kind == STRING {
        var s := rhs.str;
        rhs.str := [];
        str := s;
      } else if kind == TABLE {
        var t := rhs.table;
        rhs.table := [];
        table := t;
      } else if kind == FUNCTION {
        func := rhs.func;
      } else if kind == BOOLEAN {
        boolean := rhs.boolean;
      }
      rhs.kind := NIL;
    }

    /** Move assignment: a no-op on itself, otherwise `moveFrom`. */
    method MoveAssign(rhs: ObjectVar)
      requires Valid() && rhs.Valid()
      modifies this, rhs
      ensures Valid() && rhs.Valid()
      ensures rhs == this ==> unchanged(this)
      ensures rhs != this ==> Value() == old(rhs.Value()) && rhs.Value() == Nil
    {
      if rhs == this {
        return;
      }
      MoveFrom(rhs);
    }
  }
}
