# Simplua value bridge, modelled in Dafny

Simplua is a small C++ wrapper around an embedded Lua 5.2 interpreter. This
project models its core and proves properties of the model. The core has four
parts:

- **`lua::Object`**: a tagged union of nil, number, string, table, C function
  and boolean. It has named constructors (`make*`), checked accessors (`get*`)
  that throw `type_mismatch`, kind tests (`is*`), and copy and move operations.
  It also defines the order and equality that make Objects the keys of a
  `LuaTable` (`std::map<Object, Object>`).
  - `LuaObject`: the value and its operations.
  - `ObjectOrder`: proofs that the order is a strict total order.
  - `ObjectTable`: table assignment (`table[k] = v`).
  - `ObjectStorage`: the C++ storage (a tag plus payload fields) that copying
    and moving update in place.
- **Stack marshalling**: `PushVar<T>` pushes values and `GetStackVar<T>`
  pulls them. Both work against an abstract engine (`LuaEngine`).
  - The engine is a class that holds:
    - a value stack;
    - a heap of tables, so cyclic tables exist;
    - the globals table, the registry's loaded table and the stack capacity;
    - oracles for coercion, compilation and execution.
  - `MarshalSpec` specifies each pull as a function:
    - `Convert` is the depth-budgeted, ignore-list-filtered Object pull;
    - there is one typed pull per C++ type.
  - `Marshal` holds the imperative pushes and pulls. Each is proved against
    those functions.
  - `MarshalProperties` relates pushing and pulling: the round trip, the
    budget, the ignore list and the typed pulls.
  - `TableBranch` states the rules of the table traversal for every table:
    the ignore list skips an entry and reaches the top level only, a later
    entry overwrites an earlier one, and a table that holds itself runs out
    of budget.
- **The native-function adapter `registeredCFunction`** (`Adapter`). The
  template parameter pack becomes a run-time list of parameter kinds. The
  native function becomes an opaque function on host values. The adapter:
  - pulls each argument;
  - checks the argument count;
  - calls the function;
  - pushes the results and reports their count;
  - turns every exception into a Lua error with a fixed message.
- **The `lua::State` session**:
  - `Paths` splits a name on '.', following the `find` loop.
  - `Variables` holds the dotted-path lookups and writes of `setVariable`,
    `getVariable` and `registerFunction`.
  - `Calls` holds the load guards, `run`/`callLuaFunction`, `pushArgs` and
    the pushes of `call`.
  - `Session` holds the `State` class (the nullable engine handle, its
    lifecycle and the null guards), `loadLib` and its ten-library catalog.

The code and its documentation disagree in three places; the model follows
the code:
- **Intermediate tables.** `setVariable` does not create missing
  intermediate tables of a dotted name. Navigating through a value that is
  not a table is the engine's error (table access is raw in the model: see
  "Left out" for metatables).
- **`registerFunction`.** The header's `State::registerFunction` calls a
  member `internal_registerFunction` that is declared (Simplua.h:595) but
  never defined. The model uses the free function `internal::registerFunction`
  (Simplua.cpp:971-1007), which is defined.
- **`call`.** `call` looks its function up with `lua_getglobal` alone, so a
  dotted function name is not resolved.

## Model

| member | source | states |
|---|---|---|
| LuaObject.Object.GetType | Simplua.cpp:239-242 | the tag of every Object is one of the six kinds NIL..BOOLEAN |
| LuaObject.Trunc | Simplua.cpp:214-217 | the `int` cast truncates toward zero: the result is within one of the number, on the side of zero |
| LuaObject.TruncOfInteger | Simplua.cpp:122-128 | an integer converted to a number casts back to itself |
| LuaObject.MakeNil | Simplua.cpp:109-112 | `makeNil()` is nil and every `get*` of it throws `type_mismatch` |
| LuaObject.MakeNumber | Simplua.cpp:114-120 | `makeNumber(d)` is a number, `getNumber` returns d, the other getters throw, and `isInteger` holds exactly when d is whole |
| LuaObject.MakeInteger | Simplua.cpp:122-128 | `makeInteger(i)` is a number with `isInteger()`, `getInteger() == i` and `getNumber() == i`; the other getters throw |
| LuaObject.MakeString | Simplua.cpp:130-136 | `makeString(s)` is a string, `getString` returns s, and every other getter throws |
| LuaObject.MakeTable | Simplua.cpp:138-144 | `makeTable(m)` is a table, `getTable` returns m, and every other getter throws |
| LuaObject.MakeFunction | Simplua.cpp:146-152 | `makeFunction(f)` is a function, `getFunction` returns f, and every other getter throws |
| LuaObject.MakeBoolean | Simplua.cpp:154-160 | `makeBoolean(b)` is a boolean, `getBoolean` returns b, and every other getter throws |
| ObjectOrder.LessIrreflexive | Simplua.cpp:244-267 | no Object is below itself |
| ObjectOrder.LessAsymmetric | Simplua.cpp:244-267 | a < b and b < a never both hold |
| ObjectOrder.LessTotal | Simplua.cpp:244-267 | any two Objects are equal or ordered one way |
| ObjectOrder.LessTransitive | Simplua.cpp:244-267 | `operator<` is transitive, through nested tables |
| ObjectOrder.PairLessTransitive | Simplua.cpp:254-255 | the entry order that the table comparison uses (key first, then value) is transitive |
| ObjectOrder.TableLessStep | Simplua.cpp:254-255 | the table comparison is lexicographic over entries: it is decided by the first entries that differ |
| ObjectOrder.EquivalenceIsEquality | Simplua.cpp:244-267 | two keys are equivalent under the map order exactly when they are equal |
| ObjectOrder.PairEquivalenceIsEquality | Simplua.cpp:254-255 | two entries are equivalent under the entry order exactly when they are equal |
| ObjectOrder.Trichotomy | Simplua.cpp:244-267 | exactly one of a < b, a == b, b < a holds |
| ObjectOrder.EqualIsIdentity | Simplua.cpp:284-307 | `operator==` holds exactly for identical Objects: false across kinds, true for two nils, and tables equal entry by entry |
| ObjectOrder.DerivedOperators | Simplua.cpp:269-312 | `!=`, `>`, `<=` and `>=` mean what their names say, given how they are built from `<` and `==` |
| ObjectOrder.KindsOrderedByTag | Simplua.cpp:244-267 | Objects of different kinds compare by their tags alone |
| ObjectOrder.KindChain | Simplua.cpp:244-267 | nil < number < string < table < function < boolean, and false < true |
| ObjectTable.LookupKeys | Simplua.h:95 | a key is found in a table exactly when it is among the table's keys |
| ObjectTable.LookupFinds | Simplua.h:95 | in a sorted table, every entry is found under its own key |
| ObjectTable.Assign | Simplua.cpp:873 | `table[k] = v` keeps the keys sorted, maps k to v, leaves every other key's value alone, and adds at most the key k |
| ObjectTable.AssignOverwrites | Simplua.cpp:873 | a second assignment to the same key replaces the first |
| ObjectTable.AssignGreatest | Simplua.cpp:873 | assigning a key above every present key appends an entry |
| ObjectStorage.ObjectVar.Value | Simplua.h:122-136 | the value the storage stands for has the kind its tag names |
| ObjectStorage.ObjectVar.constructor | Simplua.cpp:75-77 | the default constructor holds nil |
| ObjectStorage.ObjectVar.Of | Simplua.cpp:109-160 | the named constructors' storage holds the given value |
| ObjectStorage.ObjectVar.CopyOf | Simplua.cpp:79-83 | the copy constructor starts as nil, then holds a copy of the source's value |
| ObjectStorage.ObjectVar.MovedFrom | Simplua.cpp:94-98 | the move constructor takes the source's value and leaves the source nil |
| ObjectStorage.ObjectVar.Copy | Simplua.cpp:44-57 | `copy` makes this hold the source's value; a distinct source keeps its value |
| ObjectStorage.ObjectVar.Assign | Simplua.cpp:85-92 | copy assignment makes this hold the source's value; self-assignment changes nothing |
| ObjectStorage.ObjectVar.MoveFrom | Simplua.cpp:59-73 | `moveFrom` leaves the source nil; from a distinct source, this then holds the source's former value |
| ObjectStorage.ObjectVar.MoveAssign | Simplua.cpp:100-107 | move assignment transfers the value and leaves the source nil; self-assignment changes nothing |
| MarshalSpec.ConvertEntries | Simplua.cpp:857-877 | the map a table traversal builds always has its keys sorted |
| MarshalSpec.PullNumber | Simplua.cpp:897-902 | `GetStackVar<LuaNumber>` succeeds exactly on slots that `lua_isnumber` accepts, with their value; otherwise it throws `type_mismatch` |
| MarshalSpec.PullInteger | Simplua.cpp:904-916 | `GetStackVar<LuaInteger>` succeeds exactly when the number survives the cast to `int`, with that value; otherwise it throws `type_mismatch` |
| MarshalSpec.PullFunction | Simplua.cpp:956-961 | `GetStackVar<LuaFunction>` accepts C functions only and returns their address |
| MarshalSpec.PullBoolean | Simplua.cpp:963-968 | `GetStackVar<LuaBoolean>` accepts booleans only and returns their value |
| MarshalSpec.PullString | Simplua.cpp:918-923 | `GetStackVar<LuaString>` accepts strings and numbers only; a string gives its text and a number the engine's text for it, each cut at the first NUL, so the result has no NUL |
| MarshalSpec.EncodesFrame | Simplua.cpp:764-771 | a pushed value stays an encoding of its Object while no table that the push built is changed |
| MarshalSpec.EncodesRefs | Simplua.cpp:749-783 | a pushed value refers only to tables in the heap, and a non-nil Object never pushes nil |
| MarshalProperties.RoundTrip | Simplua.cpp:749-895 | pushing a transferable Object and pulling it back gives the same Object, given enough budget and stack room |
| MarshalProperties.EncodedTableConverts | Simplua.cpp:857-877 | a table that was built entry by entry is traversed back into the same sorted entries |
| MarshalProperties.BudgetCheckedFirst | Simplua.cpp:830-836 | once the budget is exhausted, the pull throws `table_too_deep` without looking at the slot |
| TableBranch.SelfReferenceTooDeep | Simplua.h:37-44 | a table whose traversal reaches an entry holding the table itself, under a key that is kept and after entries that hold no table, is rejected with `table_too_deep` whatever the budget, given stack room for the nesting |
| TableBranch.IgnoreIsShallow | Simplua.cpp:861-867 | whatever the outer ignore list, every entry of a pulled table is some stored key and value pulled with one level less and the empty list: the list filters the top-level table only, and nested tables are pulled in full |
| TableBranch.IgnoreIsShallowExample | Simplua.cpp:861-867 | an instance: with `_G` ignored, a nested table keeps its `_G` entry while the same table pulled at the top loses it |
| MarshalProperties.IgnoredNeverPulled | Simplua.cpp:861-872 | no ignored key or value ever appears in a pulled table |
| TableBranch.IgnoredKeySkipsValue | Simplua.cpp:861-866 | a pass whose key pulls to an ignored Object leaves the result as it was, whatever the value under the key is |
| TableBranch.IgnoredKeySkipsValueExample | Simplua.cpp:861-866 | an instance: a too-deep value under an ignored key raises nothing, and the same table without the ignore list fails with `table_too_deep` |
| TableBranch.LaterEntryWins | Simplua.cpp:873 | `table[key] = value` of a kept entry: the key then maps to this value, whatever an earlier entry stored under it, and every other key keeps its value |
| TableBranch.LaterEntryWinsExample | Simplua.cpp:873 | an instance: the keys "a\0x" and "a\0y" both pull to "a", and the later value stays |
| MarshalProperties.IntegerAgreesWithNumber | Simplua.cpp:897-916 | the integer pull agrees with the number pull whenever the number is whole, and it fails whenever the number pull fails |
| MarshalProperties.OpaqueValuesPull | Simplua.cpp:843-895 | within the budget, nil, userdata, light userdata and threads pull as nil, and a Lua function pulls as the null function |
| Marshal.GrowStack | Simplua.cpp:36-40 | `growStack` succeeds exactly when the engine has room for n more slots, and otherwise throws `overflow_error` |
| Marshal.PushObject | Simplua.cpp:749-783 | `PushVar<Object>` pushes exactly one value encoding the Object, built only from new tables; the only errors are overflow and a nil table key |
| Marshal.NewTableFrom | Simplua.cpp:764-771 | a new table is pushed that encodes the map |
| Marshal.PushEntries | Simplua.cpp:765-771 | the loop stores every entry of the map into the new table, and the stack ends as it started |
| Marshal.PushEntry | Simplua.cpp:767-770 | one entry is pushed as a key and a value that encode it, then stored with `lua_settable` |
| Marshal.SetEntry | Simplua.cpp:770 | `lua_settable(-3)` stores the pair and pops it; a nil key fails and changes nothing |
| Marshal.PushNumber | Simplua.cpp:785-789 | `PushVar<LuaNumber>` pushes the number, or throws `overflow_error` and changes nothing |
| Marshal.PushInteger | Simplua.cpp:791-795 | `PushVar<LuaInteger>` pushes the integer as a number, or throws `overflow_error` |
| Marshal.PushString | Simplua.cpp:797-801 | `PushVar<LuaString>` pushes the string cut at its first NUL, or throws `overflow_error` |
| Marshal.PushTable | Simplua.cpp:803-813 | `PushVar<LuaTable>` pushes exactly one value encoding the table |
| Marshal.PushFunction | Simplua.cpp:815-819 | `PushVar<LuaFunction>` pushes the C function without upvalues, or throws `overflow_error` |
| Marshal.PushBoolean | Simplua.cpp:821-825 | `PushVar<LuaBoolean>` pushes the boolean, or throws `overflow_error` |
| Marshal.PullObject | Simplua.cpp:828-895 | `GetStackVar<Object>` returns exactly what `Convert` specifies for the slot, and on success leaves the stack as it was |
| Marshal.PullEntries | Simplua.cpp:857-877 | the `lua_next` loop returns exactly the traversal `ConvertEntries` specifies, and on success the stack is as before |
| Marshal.PullEntry | Simplua.cpp:861-874 | one pass of the loop extends the traversal by the entry at the cursor |
| Marshal.Start | Simplua.cpp:858-859 | `lua_pushnil` followed by `lua_next` yields the first entry, or nothing for an empty table |
| Marshal.Advance | Simplua.cpp:859-874 | popping the value and calling `lua_next` moves to the next entry, or ends the loop |
| MarshalSpec.ErrorPersists | Simplua.cpp:859-875 | once the traversal has failed, it fails with the same error to the end |
| Marshal.PullStringAt | Simplua.cpp:918-923 | the string pull returns what `PullString` specifies, and rewrites a number slot into its text |
| Marshal.PullTableAt | Simplua.cpp:925-928 | `GetStackVar<LuaTable>` is the Object pull with no ignore list, followed by `getTable()`, which throws `type_mismatch` on a non-table |
| Adapter.AsObject | Simplua.h:209-284 | `makeAuto` gives each host value the Object of its kind holding that value |
| Adapter.ArgValue | Simplua.h:446-450 | the pull for a parameter yields a host value of that parameter's kind |
| Adapter.Args | Simplua.h:446-477 | `prepareArgs` gives one value per declared parameter |
| Adapter.ArgsAt | Simplua.h:453-459 | argument i is the pull of stack slot i + 1 with the typed pull for parameter i |
| Adapter.ArgsFirstError | Simplua.h:453-459 | when the pulls fail, they fail with the error of the first argument that does not convert |
| Adapter.ArgsStop | Simplua.h:453-459 | after one pull fails, no later pull changes the error |
| Adapter.Rewritten | Simplua.cpp:918-923 | the pulls leave a stack of the same height |
| Adapter.RewrittenAt | Simplua.cpp:918-923 | only slots of string parameters that held numbers change under the pulls |
| Adapter.PullArg | Simplua.h:446-450 | one typed pull returns `ArgValue` for its slot |
| Adapter.PrepareArgs | Simplua.h:461-477 | `CallPrepareArgs` returns exactly `Args`, with no pulls for an empty parameter list |
| Adapter.PushValue | Simplua.h:344-348 | `pushVar` of a host value pushes exactly one value encoding the Object it stands for |
| Adapter.PushResults | Simplua.h:481-522 | void reports 0 and pushes nothing; otherwise the values are pushed in index order and their number is reported |
| Adapter.ContainedIsCString | Simplua.h:547-554 | both fixed messages are plain C strings |
| Adapter.ThrowLuaError | Simplua.cpp:708-713 | `throwLuaError` pushes the message only if there is room for it, then raises; it never returns normally |
| Adapter.ThrowContained | Simplua.h:547-554 | a caught exception becomes a Lua error with "Native function: type mismatch" or "Native function: unknown exception" |
| Adapter.Respond | Simplua.h:502-522 | pushing the native function's result reports its count, or raises the engine's or the caught error |
| Adapter.Registered | Simplua.h:532-558 | a failed pull, a wrong argument count or an exception from the native function raises a Lua error with the fixed message; otherwise the results are pushed and counted; any argument count other than the declared one never returns normally |
| Adapter.PushedScalarPullsBack | Simplua.h:446-450 | a scalar that the adapter pushes is pulled back unchanged by the pull for its own kind |
| Adapter.TypedPullsAgreeWithObject | Simplua.cpp:897-968 | the typed pulls agree with the Object pull on every value both accept without a coercion: a string read as a string, and any other value read as a number, integer, function or boolean |
| Adapter.CoercedPullsDiffer | Simplua.cpp:897-923 | where a typed pull coerces (a number read as a string, a numeric string read as a number) it succeeds with the coerced value, of another kind than the Object pull gives |
| Paths.Find | Simplua.cpp:502 | `find('.', from)` answers a position of '.' at or after `from` |
| Paths.FindSkips | Simplua.cpp:502-514 | `find` passes over no '.' on its way |
| Paths.FindReaches | Simplua.cpp:502-514 | `find` stops at the first '.' |
| Paths.SplitFrom | Simplua.cpp:502-517 | the `find` loop always produces at least one segment |
| Paths.Split | Simplua.cpp:502-524 | every name has at least one segment |
| Paths.SplitJoin | Simplua.cpp:502-517 | joining the segments with '.' gives back the name |
| Paths.JoinSplit | Simplua.cpp:502-517 | splitting dot-free segments joined with '.' gives back the segments |
| Paths.SplitFromDotFree | Simplua.cpp:502-517 | no segment contains a '.' |
| Paths.DottedSegments | Simplua.cpp:502-503 | a name is dotted exactly when it has two segments or more; an undotted name is its own only segment |
| Variables.Chain | Simplua.cpp:535-552 | the lookups push one value per segment, or fail because a value before the last segment is not a table |
| Variables.Target | Simplua.cpp:502-524 | a write goes to a table of the heap, or fails because the path does not lead to a table |
| Variables.ChainErrPersists | Simplua.cpp:535-552 | a lookup that fails at some segment fails for every longer prefix |
| Variables.ChainPrefix | Simplua.cpp:535-552 | a successful lookup extends the lookup of every shorter prefix |
| Variables.TargetIsReadTable | Simplua.cpp:494-557 | a write finds its table exactly when a read of the same name finds its value, and it is the table in which the read looks up the last segment |
| Variables.Walk | Simplua.cpp:507-514 | the `find` loop fails only by looking up in a value that is not a table, and otherwise stops where no '.' follows |
| Variables.WalkIsChain | Simplua.cpp:507-514 | the `find` loop agrees with the segment-by-segment lookup |
| Variables.NavigationIsChain | Simplua.cpp:502-514 | the navigation of a dotted name looks up every segment but the last |
| Variables.Descend | Simplua.cpp:511-513 | one pass of the loop: `lua_getfield` of the next segment, then the search for the next '.' |
| Variables.Navigate | Simplua.cpp:502-514 | the loop pushes exactly the values that `Navigation` specifies and ends at the start of the last segment |
| Variables.Restore | Simplua.cpp:527 | `lua_settop(index)` brings the stack back to the height saved on entry |
| Variables.StoreField | Simplua.cpp:516-519 | two slots are asked for, and the value is stored under the last segment in the table on top |
| Variables.StoreGlobal | Simplua.cpp:523-524 | an undotted write stores the pushed value as the global of that name |
| Variables.AssignDotted | Simplua.cpp:502-520 | a dotted write stores the value in the table the path leads to, or fails if the path leads to no table |
| Variables.Assign | Simplua.cpp:494-528 | `setVariable` stores an encoding of the value under the last segment of the target table and restores the stack height; no other existing table changes |
| Variables.PushClosure | Simplua.cpp:994-995 | a closure of the adapter is pushed, with the function's address as its one upvalue |
| Variables.StoreClosureField | Simplua.cpp:992-996 | the closure is stored under the last segment in the table on top |
| Variables.StoreClosureGlobal | Simplua.cpp:1000-1003 | for an undotted name, the closure becomes the global, provided two slots are granted |
| Variables.RegisterDotted | Simplua.cpp:978-997 | for a dotted name, the closure is stored in the table the path leads to |
| Variables.Register | Simplua.cpp:971-1007 | `registerFunction` succeeds exactly when the target exists and there is stack room; it then stores the closure under the last segment and restores the stack |
| Variables.LookUpDotted | Simplua.cpp:535-550 | the dotted lookups push the values of every segment |
| Variables.LookUp | Simplua.cpp:535-552 | `getVariable`'s lookups push the values that `Chain` specifies |
| Variables.LookedUp | Simplua.cpp:554 | after a successful lookup, the read's result is the Object pulled from the top slot with the ignore list and the default budget |
| Variables.MissingGlobalReadsNil | Simplua.h:628-629 | reading an undotted name that is no global yields nil |
| Variables.Read | Simplua.cpp:530-557 | `getVariable` as written returns `ReadResult`, but leaves the values of every segment before the last on the stack |
| Variables.ReadLeavesTable | Simplua.cpp:549-556 | reading "a.b" with a table `a` that holds `b` succeeds and leaves the table `a` behind on the stack |
| Variables.ReadRestoring | Simplua.cpp:530-557 | corrected `getVariable`: it returns `ReadResult` and restores the stack height |
| Calls.LoadGuard | Simplua.cpp:450-455 | the null handle is checked first (`uninitialized_resource`), then the mode must be one of b, t, bt, tb (`invalid_argument`) |
| Calls.LoadChunk | Simplua.cpp:460-469 | a compiled chunk is pushed; a failed compile pulls and pops the error value and throws `compile_error` with it |
| Calls.PullAll | Simplua.cpp:575-584 | the results gathered from the stack number as many as its slots |
| Calls.PullAllSlots | Simplua.cpp:575-584 | the results succeed exactly when every slot pulls, and result i is the pull of slot i, bottom to top |
| Calls.Returned | Simplua.cpp:561-585 | a failed call always throws; a successful one returns every slot, bottom to top |
| Calls.PullResults | Simplua.cpp:736-745 | the count-down loop returns `PullAll` of the stack and empties it on success |
| Calls.PullInto | Simplua.cpp:740-742 | one pass pulls the top, pops it and stores it in the slot below those already filled |
| Calls.CallLuaFunction | Simplua.cpp:725-746 | the protected call's effect is as the interpreter specifies; the result is `Returned`; success empties the stack and failure pops the error value |
| Calls.PushArgs | Simplua.h:561-572 | the arguments are pushed left to right, each as a value encoding it |
| Calls.PushCall | Simplua.h:649-650 | `call` pushes the global of the exact name, then the arguments |
| Session.LibraryName | Simplua.cpp:617-644 | each library has a NUL-free name, and only `all` gets "Error:getLibraryName" |
| Session.LibraryFunction | Simplua.cpp:588-615 | every library has a non-null opener |
| Session.CatalogOpeners | Simplua.cpp:650-659 | the openers of `loadLib(Lib::all)` are those of the catalog, in order |
| Session.CatalogComplete | Simplua.h:576-589 | every library except `all` is in the catalog exactly once |
| Session.LibraryNameInjective | Simplua.cpp:617-644 | no two libraries share a name |
| Session.CatalogNames | Simplua.cpp:650-659 | the names that `loadLib(Lib::all)` mounts under are those of the catalog, in order |
| Session.CatalogNamesDistinct | Simplua.cpp:617-644 | no two libraries of the catalog are mounted under the same name |
| Session.GlobalsAfter | Simplua.cpp:650-659 | mounting keeps the globals a valid table |
| Session.LoadedAfter | Simplua.cpp:650-659 | every mounted name is recorded as loaded |
| Session.GlobalMounted | Simplua.cpp:646-668 | after the mounts, each library is the global under its name, bound to its own new table |
| Session.LoadedMounted | Simplua.cpp:646-668 | after the mounts, each library is recorded as loaded under its name |
| Session.MountStep | Simplua.cpp:650-667 | one more single-library mount extends the mounted prefix of the catalog by one |
| Session.AllMounted | Simplua.cpp:646-668 | after `loadLib(Lib::all)`, library i of the catalog is both a global and a loaded module bound to the i-th new table, and its opener ran i-th |
| Session.State.constructor | Simplua.cpp:366-370 | `State()` holds a fresh engine with an empty stack |
| Session.State.Wrap | Simplua.cpp:372-374 | `State(lua_State*)` holds the given handle |
| Session.State.MovedFrom | Simplua.cpp:376-380 | the move constructor takes the handle and nulls the source |
| Session.State.Get | Simplua.cpp:399-402 | `get` returns the handle |
| Session.State.Cleanup | Simplua.cpp:357-364 | `cleanup` closes a live handle and nulls it; on a null handle it changes nothing, so it is idempotent |
| Session.State.Destroy | Simplua.cpp:410-413 | `destroy` (and the destructor) is `cleanup` |
| Session.State.Create | Simplua.cpp:404-408 | `create` closes any handle held before it makes a fresh one |
| Session.State.MoveAssign | Simplua.cpp:382-392 | move assignment onto itself changes nothing; otherwise it closes the old handle, takes the source's handle and nulls the source |
| Session.State.LoadString | Simplua.cpp:472-492 | the guards of `LoadGuard`, then the chunk is compiled as "string_script" with default mode "t" |
| Session.State.LoadFile | Simplua.cpp:450-470 | the guards of `LoadGuard`, then the file's contents are compiled under the file name with default mode "bt"; an unreadable file throws `compile_error` |
| Session.State.Run | Simplua.cpp:561-585 | null handle: `uninitialized_resource`; otherwise the chunk is called with no arguments and the result is `Returned`; success empties the stack |
| Session.State.Call | Simplua.h:643-653 | null handle: `uninitialized_resource`; otherwise the exact global and the encoded arguments are pushed, and it is called with as many arguments |
| Session.State.SetVariable | Simplua.cpp:494-528 | null handle: `uninitialized_resource`; otherwise it is `Variables.Assign` |
| Session.State.GetVariable | Simplua.cpp:530-557 | null handle: `uninitialized_resource`; otherwise it returns `ReadResult` with the stack restored (the corrected read) |
| Session.State.RegisterFunction | Simplua.h:663-667 | null handle: `uninitialized_resource`; otherwise it is `Variables.Register` |
| Session.State.Mount | Simplua.cpp:665-666 | `luaL_requiref` followed by `lua_pop`: the opener runs once, its table becomes the global and loaded module of the name, and the stack is unchanged |
| Session.State.LoadLib | Simplua.cpp:646-668 | one library is mounted under its own name with the stack unchanged; `all` mounts the ten libraries of the catalog in order |
| Session.State.MountNext | Simplua.cpp:650-659 | each of the ten calls extends the mounted prefix of the catalog by one |
| Session.State.MountRest | Simplua.cpp:650-659 | the calls from catalog entry `k` on, in order, complete the mounted prefix to the whole catalog |
| Session.State.LoadLibNamed | Simplua.cpp:670-691 | one library is mounted under the given name; for `all` the name is ignored and the result is the same as `loadLib(Lib::all)` |

## Left out

- File I/O: `readFile` and `trivialLuaReader` are replaced by the `contents` parameter of `LoadFile`. None means the file could not be opened.
- The Lua compiler and the interpreter are oracles of the engine configuration. The `luaopen_*` library bodies are not: every opener is modelled as returning a new empty table, and the functions the libraries define are not modelled.
- Table access is raw: metatables and metamethods are not modelled. In Lua 5.2, `lua_getfield` on a string goes through the string metatable once the string library is loaded, so `getVariable("s.len")` with a string `s` yields `string.len`; `__index` and `__newindex` run on `lua_getfield`, `lua_settable`, `lua_getglobal` and `lua_setglobal`. In the model, navigating through a string is an engine error and every table access is raw.
- `LuaEngine.Engine.Push`: pushes made without `lua_checkstack` always succeed. Lua 5.2 guarantees only `LUA_MINSTACK` (20) free slots, so the unchecked pushes of the navigation (`lua_getglobal`, `lua_getfield`), of `lua_load` and of `luaL_requiref` cannot overflow in the model. The capacity bounds only the pushes that `growStack` checks.
- `Session.AllMounted`: each library is bound to the i-th new table because every opener is modelled as returning a fresh empty table. In Lua 5.2, `luaopen_base` returns the global table itself, so `base` is bound to `_G` (the recursive reference Simplua.h:631 mentions), and no new table is made for it.
- `Session.State.Mount`: the module it binds is a fresh empty table, whatever the opener; for `luaopen_base` Lua 5.2 binds the global table instead.
- `Session.State.LoadLib`: for `base` (and so for `all`) it binds a fresh empty table where Lua 5.2 binds the global table, as for `Session.State.Mount`.
- `Session.State.GetVariable`: it uses the corrected read `Variables.ReadRestoring`, which restores the stack height. The read as written, which leaves the values of the segments before the last on the stack, is `Variables.Read` (see "Findings"). So the session does not show the consequence of the leak: a later `run` or `call` collects the whole stack and would return those values as extra results.
- `TableBranch.SelfReferenceTooDeep`: it assumes that the entries before the self-reference hold no table, that its key is kept and that the stack has room for the nesting. Otherwise an earlier entry's error, an `overflow_error`, or nothing (an ignored key) can come first.
- Lua's string/number coercion (`lua_isnumber`, `lua_tostring`) is an oracle.
- Numbers are NaN-free reals. Rounding and the undefined behaviour of an out-of-range `int` cast are not modelled.
- `printObject` and `operator<<` are not modelled. Neither are the exact message strings that the exceptions carry: an exception records its kind, plus the engine's error value for `compile_error` and `script_error`.
- Template metaprogramming (`SequenceGenerator`, `Unpacker`, `makeAuto`'s overloads) is replaced by a run-time list of parameter kinds. A function pointer passed through light userdata is an opaque id.
- The `std::cout` diagnostic for an unsupported type is not modelled. `WeakTable`, userdata and thread Objects are declared in the source but never defined, so they are left out.
- `lua_next` visits a table's entries in the order they were stored. No other order is modelled.
- An engine error raised outside a protected call is a `LuaError` result. In Lua it would be a panic or a `longjmp`, and that control flow is not modelled.
- `luaL_newstate` never fails in the model, so the null state it can return is not modelled.
- The header's union of `num`, `func` and `boolean` is three separate fields in `ObjectStorage.ObjectVar`. Writing one of them therefore does not clobber the others.
- `State(lua_State*)` can give two States the same handle. `Session.State.MoveAssign` requires that each handle has one owner.
- `Session.State.Call`: requires at least one argument, since `pushArgs` has no overload for an empty pack and a zero-argument `call` does not compile.
- `Session.State.LoadLib`: requires a live handle, since the source has no null check there.
- `Session.State.LoadLibNamed`: requires a live handle, since the source has no null check there.
- `Session.State.MountRest`: the ten straight-line `loadLib` calls for `all` are written as a recursion over the catalog, one call per entry in the same order; the effect is the same.
- `Session.State.Run`: requires a chunk on the stack when the handle is live; the source calls whatever is on top.
- `Variables.Assign`: on an error, it states only the error kind and that the existing tables are intact. The stack after an engine error is not specified.
- `Variables.Register`: on an error, it states only that the heap is unchanged. The stack is not specified.
- `Calls.CallLuaFunction`: after a failed call whose error value cannot be pulled, the stack is not specified.
- `Marshal.PullObject`: after an error, it states only that the values below the slot's stack are intact.
- `Session.State.Call`: when pushing an argument fails, it states only the error kind.
- `Session.State.SetVariable`: it restates the main clauses of `Variables.Assign`, not all of them.
- `Session.State.RegisterFunction`: it restates the main clauses of `Variables.Register`, not all of them.

## Findings

| source | as written | input that shows it | evidently intended | confidence | as-written member | corrected member |
|---|---|---|---|---|---|---|
| Simplua.cpp:549-556 | a dotted `getVariable` pops only the value it pulled, so the value of every segment before the last stays on the stack; a later `run()` or `call()` collects the whole stack and returns those values as extra results | global `a` is a table holding `b = 1`; `getVariable("a.b")` returns 1 and leaves table `a` on the stack | restore the stack height on exit, as `setVariable` and `registerFunction` do with `lua_settop(index)` | not executed | Variables.Read, Variables.ReadLeavesTable | Variables.ReadRestoring |
