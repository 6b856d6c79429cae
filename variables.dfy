/**
 * Reading and writing variables by dotted name: the body of
 * `State::setVariable`, `State::getVariable` and `internal::registerFunction`
 * once the handle is known to be non-null. The text before the first '.'
 * names a global, each further segment but the last is looked up with
 * `lua_getfield` in the value found so far, and the last segment is the key
 * that is written or read. Intermediate tables are not created: looking up a
 * segment in anything but a table is the engine's "attempt to index" error.
 */
module Variables {
  import opened Options
  import opened LuaObject
  import opened LuaEngine
  import opened MarshalSpec
  import opened Marshal
  import opened Paths

  /** The engine's error for `lua_getfield` or `lua_settable` on a value that is not a table. */
  const NotATable := LuaError("attempt to index a non-table value")

  /** The key a segment becomes once `c_str()` has cut it at its first NUL. */
  function Key(segment: string): LVal {
    LString(CString(segment))
  }

  /**
   * The values the lookups push for the first `n` segments: the global named
   * by the first, then each segment's field in the value before it.
   */
  function Chain(h: Heap, g: Ref, segs: seq<string>, n: nat): (r: Result<seq<LVal>>)
    requires g in h && 1 <= n <= |segs|
    ensures r.Ok? ==> |r.value| == n
    ensures r.Err? ==> r.error == NotATable
    decreases n
  {
    if n == 1 then Ok([RawGet(h[g], Key(segs[0]))])
    else match Chain(h, g, segs, n - 1)
      case Err(x) => Err(x)
      case Ok(vs) =>
        var top := vs[n - 2];
        if top.LTable? && top.ref in h then Ok(vs + [RawGet(h[top.ref], Key(segs[n - 1]))])
        else Err(NotATable)
  }

  /** In a closed heap every value looked up refers only to tables of the heap. */
  lemma {:induction false} ChainRefs(h: Heap, g: Ref, segs: seq<string>, n: nat)
    requires Closed(h) && g in h && 1 <= n <= |segs|
    ensures Chain(h, g, segs, n).Ok? ==> AllRefsIn(Chain(h, g, segs, n).value, h.Keys)
    decreases n
  {
    if n == 1 {
      RawGetRefs(h[g], Key(segs[0]), h.Keys);
    } else if Chain(h, g, segs, n).Ok? {
      ChainRefs(h, g, segs, n - 1);
      var vs := Chain(h, g, segs, n - 1).value;
      RawGetRefs(h[vs[n - 2].ref], Key(segs[n - 1]), h.Keys);
      var v := RawGet(h[vs[n - 2].ref], Key(segs[n - 1]));
      assert forall i :: 0 <= i < n ==> (vs + [v])[i] == if i < n - 1 then vs[i] else v;
    }
  }

  /**
   * The table a write goes to: the globals for an undotted name, otherwise
   * the value the segments before the last lead to, which must be a table.
   */
  function Target(h: Heap, g: Ref, segs: seq<string>): (r: Result<Ref>)
    requires g in h && |segs| >= 1
    ensures r.Ok? ==> r.value in h
    ensures r.Err? ==> r.error == NotATable
  {
    if |segs| == 1 then Ok(g)
    else match Chain(h, g, segs, |segs| - 1)
      case Err(x) => Err(x)
      case Ok(vs) =>
        if vs[|segs| - 2].LTable? && vs[|segs| - 2].ref in h then Ok(vs[|segs| - 2].ref)
        else Err(NotATable)
  }

  /** A lookup that fails at some segment fails for every longer prefix too. */
  lemma {:induction false} ChainErrPersists(h: Heap, g: Ref, segs: seq<string>, m: nat, n: nat)
    requires g in h && 1 <= m <= n <= |segs|
    requires Chain(h, g, segs, m).Err?
    ensures Chain(h, g, segs, n) == Err(NotATable)
    decreases n - m
  {
    if m < n {
      ChainErrPersists(h, g, segs, m, n - 1);
    }
  }

  /** A successful lookup of `n` segments extends the lookup of any fewer. */
  lemma {:induction false} ChainPrefix(h: Heap, g: Ref, segs: seq<string>, m: nat, n: nat)
    requires g in h && 1 <= m <= n <= |segs|
    requires Chain(h, g, segs, n).Ok?
    ensures Chain(h, g, segs, m) == Ok(Chain(h, g, segs, n).value[..m])
    decreases n - m
  {
    if m < n {
      var vs := Chain(h, g, segs, n - 1);
      assert vs.Ok?;
      ChainPrefix(h, g, segs, m, n - 1);
      assert Chain(h, g, segs, n).value[..n - 1] == vs.value;
      assert Chain(h, g, segs, n).value[..m] == vs.value[..m];
    } else {
      assert Chain(h, g, segs, n).value[..n] == Chain(h, g, segs, n).value;
    }
  }

  /**
   * The table a write goes to is where a read of the same name looks its last
   * segment up: a write finds its table exactly when a read finds its value.
   */
  lemma TargetIsReadTable(h: Heap, g: Ref, segs: seq<string>)
    requires g in h && |segs| >= 1
    ensures Target(h, g, segs).Ok? <==> Chain(h, g, segs, |segs|).Ok?
    ensures Target(h, g, segs).Ok? ==>
      Chain(h, g, segs, |segs|).value[|segs| - 1] == RawGet(h[Target(h, g, segs).value], Key(segs[|segs| - 1]))
  {
  }

  /** One more segment looked up after a successful lookup. */
  lemma ChainStep(h: Heap, g: Ref, segs: seq<string>, j: nat, vs: seq<LVal>)
    requires g in h && 1 <= j < |segs| && Chain(h, g, segs, j) == Ok(vs)
    ensures vs[j - 1].LTable? && vs[j - 1].ref in h ==>
              Chain(h, g, segs, j + 1) == Ok(vs + [RawGet(h[vs[j - 1].ref], Key(segs[j]))])
    ensures !(vs[j - 1].LTable? && vs[j - 1].ref in h) ==> Chain(h, g, segs, j + 1) == Err(NotATable)
  {
  }

  /** One pass of the `find` loop: the text up to the next '.' is the next segment. */
  lemma SegmentStep(name: string, segs: seq<string>, j: nat, last: nat, p: nat)
    requires last <= |name| && j <= |segs| && SplitFrom(name, last) == segs[j..] && Find(name, last) == Some(p)
    ensures j + 1 < |segs| && segs[j] == name[last..p] && SplitFrom(name, p + 1) == segs[j + 1..]
  {
    SplitFromSome(name, last, p);
    assert segs[j..][0] == segs[j] && segs[j..][1..] == segs[j + 1..];
  }

  /** The end of the `find` loop: the rest of the name is the last segment. */
  lemma SegmentLast(name: string, segs: seq<string>, j: nat, last: nat)
    requires last <= |name| && j <= |segs| && SplitFrom(name, last) == segs[j..] && Find(name, last).None?
    ensures j == |segs| - 1 && name[last..] == segs[j]
  {
    SplitFromNone(name, last);
    assert segs[j..][0] == segs[j];
    assert name[last..] == name[last..|name|];
  }

  /**
   * The `find` loop from `last` with `top` on the stack top: while a '.'
   * follows, the text up to it is looked up in `top` with `lua_getfield`.
   * Yields the values pushed and where the last segment starts.
   */
  function Walk(h: Heap, top: LVal, name: string, last: nat): (r: Result<(seq<LVal>, nat)>)
    requires last <= |name|
    ensures r.Err? ==> r.error == NotATable
    ensures r.Ok? ==> last <= r.value.1 <= |name| && Find(name, r.value.1).None?
    decreases |name| - last
  {
    match Find(name, last)
    case None => Ok(([], last))
    case Some(p) =>
      if !(top.LTable? && top.ref in h) then Err(NotATable)
      else
        var v := RawGet(h[top.ref], Key(name[last..p]));
        Then([v], Walk(h, v, name, p + 1))
  }

  /** A walk's result with `pre` pushed before it. */
  function Then(pre: seq<LVal>, r: Result<(seq<LVal>, nat)>): Result<(seq<LVal>, nat)> {
    match r
    case Err(x) => Err(x)
    case Ok(w) => Ok((pre + w.0, w.1))
  }

  lemma ThenThen(a: seq<LVal>, b: seq<LVal>, r: Result<(seq<LVal>, nat)>)
    ensures Then(a, Then(b, r)) == Then(a + b, r)
  {
    if r.Ok? {
      assert a + (b + r.value.0) == (a + b) + r.value.0;
    }
  }

  /** One pass of the walk: the end of the name, a lookup in a table, or a lookup in something else. */
  lemma WalkUnfold(h: Heap, top: LVal, name: string, last: nat)
    requires last <= |name|
    ensures Find(name, last).None? ==> Walk(h, top, name, last) == Ok(([], last))
    ensures Find(name, last).Some? && !(top.LTable? && top.ref in h) ==> Walk(h, top, name, last) == Err(NotATable)
    ensures Find(name, last).Some? && top.LTable? && top.ref in h ==>
      var p := Find(name, last).value;
      Walk(h, top, name, last) == Then([RawGet(h[top.ref], Key(name[last..p]))], Walk(h, RawGet(h[top.ref], Key(name[last..p])), name, p + 1))
  {
  }

  /**
   * The walk on from the last value of `pre` agrees with the
   * segment-by-segment lookup: it fails exactly when the lookup of all but
   * the last segment fails, and otherwise pushes the rest of those values
   * and stops at the last segment.
   */
  ghost predicate WalkAgrees(h: Heap, g: Ref, name: string, segs: seq<string>, last: nat, pre: seq<LVal>)
    requires g in h && |segs| >= 2 && last <= |name| && |pre| >= 1
  {
    var w := Then(pre, Walk(h, pre[|pre| - 1], name, last));
    var ch := Chain(h, g, segs, |segs| - 1);
    (w.Ok? <==> ch.Ok?) && (w.Ok? ==> w.value.0 == ch.value && name[w.value.1..] == segs[|segs| - 1])
  }

  lemma WalkAgreesLast(h: Heap, g: Ref, name: string, segs: seq<string>, j: nat, last: nat, pre: seq<LVal>)
    requires g in h && 1 <= j < |segs| && last <= |name| && SplitFrom(name, last) == segs[j..]
    requires Chain(h, g, segs, j) == Ok(pre) && Find(name, last).None?
    ensures WalkAgrees(h, g, name, segs, last, pre)
  {
    WalkUnfold(h, pre[j - 1], name, last);
    SegmentLast(name, segs, j, last);
    assert pre + [] == pre;
  }

  lemma WalkAgreesStuck(h: Heap, g: Ref, name: string, segs: seq<string>, j: nat, last: nat, pre: seq<LVal>)
    requires g in h && 1 <= j < |segs| && last <= |name| && SplitFrom(name, last) == segs[j..]
    requires Chain(h, g, segs, j) == Ok(pre) && Find(name, last).Some? && !(pre[j - 1].LTable? && pre[j - 1].ref in h)
    ensures WalkAgrees(h, g, name, segs, last, pre)
  {
    SegmentStep(name, segs, j, last, Find(name, last).value);
    StuckChainFails(h, g, segs, j, pre);
    StuckWalkFails(h, name, last, pre);
    BothFail(h, g, name, segs, last, pre);
  }

  /** A lookup that reached something other than a table, with a segment still to go, fails. */
  lemma StuckChainFails(h: Heap, g: Ref, segs: seq<string>, j: nat, pre: seq<LVal>)
    requires g in h && 1 <= j && j + 1 < |segs| && Chain(h, g, segs, j) == Ok(pre) && !(pre[j - 1].LTable? && pre[j - 1].ref in h)
    ensures Chain(h, g, segs, |segs| - 1).Err?
  {
    ChainStep(h, g, segs, j, pre);
    ChainErrPersists(h, g, segs, j + 1, |segs| - 1);
  }

  /** A walk from something other than a table, with a '.' still ahead, fails. */
  lemma StuckWalkFails(h: Heap, name: string, last: nat, pre: seq<LVal>)
    requires last <= |name| && |pre| >= 1 && Find(name, last).Some? && !(pre[|pre| - 1].LTable? && pre[|pre| - 1].ref in h)
    ensures Walk(h, pre[|pre| - 1], name, last).Err?
  {
    WalkUnfold(h, pre[|pre| - 1], name, last);
  }

  /** A walk and a lookup that both fail agree. */
  lemma BothFail(h: Heap, g: Ref, name: string, segs: seq<string>, last: nat, pre: seq<LVal>)
    requires g in h && |segs| >= 2 && last <= |name| && |pre| >= 1
    requires Walk(h, pre[|pre| - 1], name, last).Err? && Chain(h, g, segs, |segs| - 1).Err?
    ensures WalkAgrees(h, g, name, segs, last, pre)
  {
  }

  lemma WalkAgreesStep(h: Heap, g: Ref, name: string, segs: seq<string>, j: nat, last: nat, p: nat, pre: seq<LVal>, v: LVal)
    requires g in h && 1 <= j < |segs| && |segs| >= 2 && last <= |name| && |pre| == j
    requires Find(name, last) == Some(p) && segs[j] == name[last..p]
    requires pre[j - 1].LTable? && pre[j - 1].ref in h && v == RawGet(h[pre[j - 1].ref], Key(segs[j]))
    requires WalkAgrees(h, g, name, segs, p + 1, pre + [v])
    ensures WalkAgrees(h, g, name, segs, last, pre)
  {
    WalkUnfold(h, pre[j - 1], name, last);
    ThenThen(pre, [v], Walk(h, v, name, p + 1));
    assert (pre + [v])[j] == v;
  }

  /**
   * The walk from segment `j` agrees with the segment-by-segment lookup, by
   * induction on the part of the name still to be walked.
   */
  lemma {:induction false} WalkIsChain(h: Heap, g: Ref, name: string, segs: seq<string>, j: nat, last: nat, pre: seq<LVal>)
    requires g in h && 1 <= j < |segs| && last <= |name| && SplitFrom(name, last) == segs[j..]
    requires Chain(h, g, segs, j) == Ok(pre)
    ensures WalkAgrees(h, g, name, segs, last, pre)
    decreases |name| - last, 1
  {
    if Find(name, last).None? {
      WalkAgreesLast(h, g, name, segs, j, last, pre);
    } else if !(pre[j - 1].LTable? && pre[j - 1].ref in h) {
      WalkAgreesStuck(h, g, name, segs, j, last, pre);
    } else {
      WalkDescends(h, g, name, segs, j, last, pre);
    }
  }

  /** The induction step of `WalkIsChain`: one segment looked up in a table, then the walk on from it. */
  lemma {:induction false} WalkDescends(h: Heap, g: Ref, name: string, segs: seq<string>, j: nat, last: nat, pre: seq<LVal>)
    requires g in h && 1 <= j < |segs| && last <= |name| && SplitFrom(name, last) == segs[j..]
    requires Chain(h, g, segs, j) == Ok(pre) && Find(name, last).Some? && pre[j - 1].LTable? && pre[j - 1].ref in h
    ensures WalkAgrees(h, g, name, segs, last, pre)
    decreases |name| - last, 0
  {
    var p := Find(name, last).value;
    SegmentStep(name, segs, j, last, p);
    ChainStep(h, g, segs, j, pre);
    var v := RawGet(h[pre[j - 1].ref], Key(segs[j]));
    WalkIsChain(h, g, name, segs, j + 1, p + 1, pre + [v]);
    WalkAgreesStep(h, g, name, segs, j, last, p, pre, v);
  }

  /** The whole navigation of a dotted name: `lua_getglobal` of the first segment, then the walk. */
  function Navigation(h: Heap, g: Ref, name: string): (r: Result<(seq<LVal>, nat)>)
    requires g in h && Find(name, 0).Some?
  {
    var p := Find(name, 0).value;
    var first := RawGet(h[g], Key(name[0..p]));
    Then([first], Walk(h, first, name, p + 1))
  }

  /** The navigation of a dotted name looks up every segment but the last. */
  lemma NavigationIsChain(h: Heap, g: Ref, name: string)
    requires g in h && Find(name, 0).Some?
    ensures |Split(name)| >= 2
    ensures var segs := Split(name);
      var w := Navigation(h, g, name);
      var ch := Chain(h, g, segs, |segs| - 1);
      (w.Ok? <==> ch.Ok?) && (w.Ok? ==> w.value.0 == ch.value && name[w.value.1..] == segs[|segs| - 1])
  {
    var segs := Split(name);
    var p := Find(name, 0).value;
    assert segs[0..] == segs;
    SegmentStep(name, segs, 0, 0, p);
    var first := RawGet(h[g], Key(name[0..p]));
    assert Chain(h, g, segs, 1) == Ok([first]);
    WalkIsChain(h, g, name, segs, 1, p + 1, [first]);
  }

  /**
   * One pass of the `find` loop: `lua_getfield(-1, …)` of the segment that
   * starts at `last` and ends at the next '.', then the search for the '.'
   * after it.
   */
  method Descend(e: Engine, name: string, last: nat, ghost h: Heap, ghost stack: seq<LVal>)
    returns (r: Result<()>, last': nat, next: Option<nat>)
    requires e.Valid() && h == e.heap && stack == e.stack && |stack| >= 1 && last <= |name| && Find(name, last).Some?
    modifies e
    ensures e.Valid() && e.OnlyStack() && last < last'
    ensures r.Err? ==> r.error == NotATable && Walk(h, stack[|stack| - 1], name, last).Err?
    ensures r.Ok? ==>
      |e.stack| >= 1 && e.stack == stack + [e.stack[|e.stack| - 1]] &&
      last' <= |name| && next == Find(name, last') &&
      Walk(h, stack[|stack| - 1], name, last) ==
        Then([e.stack[|e.stack| - 1]], Walk(h, e.stack[|e.stack| - 1], name, last'))
  {
    ghost var top := stack[|stack| - 1];
    assert RefsIn(top, h.Keys) && e.Slot(-1) == Some(top);
    WalkUnfold(h, top, name, last);
    var p := Find(name, last).value;
    r := e.GetField(-1, name[last..p]);
    last' := p + 1;
    next := Find(name, last');
    if r.Ok? {
      assert e.stack[|e.stack| - 1] == RawGet(h[top.ref], Key(name[last..p]));
    }
  }

  /** `lua_getglobal` of the first segment of a dotted name, where the walk through the others starts. */
  method NavigateFirst(e: Engine, name: string, ghost h: Heap, ghost s0: seq<LVal>) returns (last: nat, next: Option<nat>)
    requires e.Valid() && h == e.heap && s0 == e.stack && Find(name, 0).Some?
    modifies e
    ensures e.Valid() && e.OnlyStack()
    ensures last <= |name| && next == Find(name, last) && |e.stack| >= 1
    ensures Then(s0, Navigation(h, e.globals, name)) == Then(e.stack, Walk(h, e.stack[|e.stack| - 1], name, last))
  {
    var period := Find(name, 0).value;
    e.GetGlobal(name[0..period]);
    last := period + 1;
    next := Find(name, last);
    ThenThen(s0, [e.stack[|s0|]], Walk(h, e.stack[|s0|], name, last));
  }

  /**
   * The `find` loop of a dotted name: `lua_getglobal` of the first segment,
   * then `lua_getfield(-1, …)` of each middle segment. It leaves the values
   * looked up on the stack and `last` at the start of the last segment.
   */
  method Navigate(e: Engine, name: string) returns (r: Result<()>, last: nat)
    requires e.Valid() && Find(name, 0).Some?
    modifies e
    ensures e.Valid() && e.OnlyStack()
    ensures var w := Navigation(e.heap, e.globals, name);
      (r.Ok? <==> w.Ok?) && (r.Err? ==> r.error == NotATable) &&
      (r.Ok? ==> e.stack == old(e.stack) + w.value.0 && last == w.value.1)
  {
    ghost var h := e.heap;
    ghost var s0 := e.stack;
    ghost var full := Navigation(h, e.globals, name);
    var next;
    last, next := NavigateFirst(e, name, h, s0);
    while next.Some?
      invariant e.Valid() && e.OnlyStack() && e.heap == h
      invariant last <= |name| && next == Find(name, last) && |e.stack| >= 1
      invariant Then(s0, full) == Then(e.stack, Walk(h, e.stack[|e.stack| - 1], name, last))
      decreases |name| - last
    {
      ghost var s := e.stack;
      r, last, next := Descend(e, name, last, h, s);
      if r.Err? {
        return;
      }
      ThenThen(s, [e.stack[|e.stack| - 1]], Walk(h, e.stack[|e.stack| - 1], name, last));
    }
    assert e.stack + [] == e.stack;
    r := Ok(());
  }

  /** The heap after `t[key] = v`, where `v` is what `pushVar` built for `o`: no other old table changed. */
  ghost predicate Stored(h: Heap, h': Heap, t: Ref, key: LVal, o: Object) {
    t in h && t in h' &&
    (forall x :: x in h && x != t ==> x in h' && h'[x] == h[x]) &&
    Encodes(h', h.Keys, RawGet(h'[t], key), o) &&
    h'[t] == RawSet(h[t], key, RawGet(h'[t], key))
  }

  /** The last write of a variable: the value encoding `o` goes under `key` in table `t`. */
  lemma StoreEncoded(h0: Heap, next0: Ref, h1: Heap, h2: Heap, t: Ref, key: LVal, v: LVal, o: Object)
    requires HeapOk(h1, next0) && t in h0 && Extends(h0, h1) && Encodes(h1, h0.Keys, v, o)
    requires h2 == h1[t := RawSet(h1[t], key, v)]
    ensures Stored(h0, h2, t, key, o)
  {
    RawSetGet(h1[t], key, v);
    EncodesFrame(h1, h2, h0.Keys, v, o);
  }

  /** `lua_settop(state, index)` with the height saved on entry, once only values above it were pushed. */
  method Restore(e: Engine, s0: seq<LVal>)
    requires e.Valid() && |e.stack| >= |s0| && e.stack[..|s0|] == s0
    modifies e
    ensures e.Valid() && e.OnlyStack() && e.stack == s0
  {
    e.SetTop(|s0|);
    assert e.stack == s0;
  }

  /**
   * The write of a dotted name once its navigation succeeded: two slots are
   * asked for, the last segment and the value are pushed and `lua_settable`
   * stores them into the value the navigation left on top.
   */
  method StoreField(e: Engine, key: string, o: Object) returns (r: Result<()>)
    requires e.Valid() && |e.stack| >= 1
    modifies e
    ensures e.Valid() && (r.Err? ==> Extends(old(e.heap), e.heap))
    ensures e.loaded == old(e.loaded) && e.openers == old(e.openers) && e.closed == old(e.closed)
    ensures var top := old(e.stack[|e.stack| - 1]);
      (!(top.LTable? && top.ref in old(e.heap)) ==> r.Err?) &&
      (r.Ok? ==> top.LTable? && e.stack == old(e.stack) && Stored(old(e.heap), e.heap, top.ref, Key(key), o))
    ensures r.Err? ==> r.error == NotATable || r.error == OverflowError || r.error == LuaError("table index is nil")
  {
    ghost var h0 := e.heap;
    ghost var s0 := e.stack;
    ghost var top := e.stack[|e.stack| - 1];
    assert RefsIn(top, h0.Keys);
    r := PushKeyValue(e, key, o);
    if r.Err? {
      return;
    }
    ghost var h1 := e.heap;
    ghost var v := e.stack[|s0| + 1];
    r := e.SetTable(-3);
    if r.Err? {
      return;
    }
    StoreEncoded(h0, e.nextRef, h1, e.heap, top.ref, Key(key), v, o);
  }

  /** `growStack(state, 2)`, then the key and `pushVar` of the value: the pair `lua_settable` stores. */
  method PushKeyValue(e: Engine, key: string, o: Object) returns (r: Result<()>)
    requires e.Valid()
    modifies e
    ensures e.Valid() && Extends(old(e.heap), e.heap)
    ensures e.loaded == old(e.loaded) && e.openers == old(e.openers) && e.closed == old(e.closed)
    ensures r.Ok? ==> |e.stack| == |old(e.stack)| + 2 && e.stack == old(e.stack) + [Key(key), e.stack[|old(e.stack)| + 1]]
    ensures r.Ok? ==> Encodes(e.heap, old(e.heap).Keys, e.stack[|old(e.stack)| + 1], o)
    ensures r.Err? ==> r.error == OverflowError || r.error == LuaError("table index is nil")
  {
    r := GrowStack(e, 2);
    if r.Err? {
      return;
    }
    ghost var s0 := e.stack;
    e.PushString(key);
    r := PushObject(e, o);
    if r.Err? {
      return;
    }
    assert e.stack == s0 + [Key(key), e.stack[|s0| + 1]];
  }

  /** The write of an undotted name: the value is pushed and `lua_setglobal` stores it. */
  method StoreGlobal(e: Engine, name: string, o: Object) returns (r: Result<()>)
    requires e.Valid()
    modifies e
    ensures e.Valid() && (r.Err? ==> Extends(old(e.heap), e.heap))
    ensures e.loaded == old(e.loaded) && e.openers == old(e.openers) && e.closed == old(e.closed)
    ensures r.Ok? ==> e.stack == old(e.stack) && Stored(old(e.heap), e.heap, e.globals, Key(name), o)
    ensures r.Err? ==> r.error == OverflowError || r.error == LuaError("table index is nil")
  {
    ghost var h0 := e.heap;
    ghost var s0 := e.stack;
    r := PushObject(e, o);
    if r.Err? {
      return;
    }
    ghost var h1 := e.heap;
    ghost var v := e.stack[|s0|];
    e.SetGlobal(name);
    assert e.stack == s0;
    StoreEncoded(h0, e.nextRef, h1, e.heap, e.globals, Key(name), v, o);
  }

  /** Whether the navigation of a dotted name reaches its last segment; an undotted name has none. */
  ghost predicate Reaches(h: Heap, g: Ref, segs: seq<string>)
    requires g in h && |segs| >= 1
  {
    |segs| == 1 || Chain(h, g, segs, |segs| - 1).Ok?
  }

  /** Where a successful navigation leaves the table a write goes to: on top of the stack. */
  lemma Navigated(h: Heap, g: Ref, name: string, s0: seq<LVal>, stack: seq<LVal>)
    requires g in h && Find(name, 0).Some? && Navigation(h, g, name).Ok?
    requires stack == s0 + Navigation(h, g, name).value.0
    ensures var segs := Split(name);
      var top := stack[|stack| - 1];
      |segs| >= 2 && |stack| == |s0| + |segs| - 1 && stack[..|s0|] == s0 && Reaches(h, g, segs) &&
      Target(h, g, segs) == (if top.LTable? && top.ref in h then Ok(top.ref) else Err(NotATable)) &&
      segs[|segs| - 1] == name[Navigation(h, g, name).value.1..]
  {
    NavigationIsChain(h, g, name);
    var vs := Navigation(h, g, name).value.0;
    PrefixAppend(s0, vs);
    LastOfAppend(s0, vs, stack);
  }

  /** A navigation that fails leaves no table to write to. */
  lemma NavigationFailed(h: Heap, g: Ref, name: string)
    requires g in h && Find(name, 0).Some? && Navigation(h, g, name).Err?
    ensures !Reaches(h, g, Split(name)) && Target(h, g, Split(name)).Err?
    ensures Chain(h, g, Split(name), |Split(name)|) == Err(NotATable)
  {
    NavigationIsChain(h, g, name);
    ChainErrPersists(h, g, Split(name), |Split(name)| - 1, |Split(name)|);
  }

  /** After a successful navigation, `lua_getfield` of the last segment completes the lookup of every segment. */
  lemma NavigatedRead(h: Heap, g: Ref, name: string, s0: seq<LVal>, stack: seq<LVal>)
    requires g in h && Find(name, 0).Some? && Navigation(h, g, name).Ok?
    requires stack == s0 + Navigation(h, g, name).value.0
    ensures |stack| > |s0|
    ensures var segs := Split(name);
      var top := stack[|stack| - 1];
      var ch := Chain(h, g, segs, |segs|);
      (top.LTable? && top.ref in h ==>
         ch.Ok? && s0 + ch.value == stack + [RawGet(h[top.ref], Key(name[Navigation(h, g, name).value.1..]))]) &&
      (!(top.LTable? && top.ref in h) ==> ch == Err(NotATable))
  {
    var segs := Split(name);
    NavigationIsChain(h, g, name);
    var vs := Navigation(h, g, name).value.0;
    ChainStep(h, g, segs, |segs| - 1, vs);
    if vs[|segs| - 2].LTable? && vs[|segs| - 2].ref in h {
      SnocAssoc(s0, vs, RawGet(h[vs[|segs| - 2].ref], Key(segs[|segs| - 1])));
    }
  }

  lemma PrefixAppend<T>(a: seq<T>, b: seq<T>)
    ensures |a + b| >= |a| && (a + b)[..|a|] == a
  {
  }

  /** The navigation and the store of a dotted name, without the final `lua_settop`. */
  method AssignDotted(e: Engine, name: string, o: Object) returns (r: Result<()>)
    requires e.Valid() && Find(name, 0).Some?
    modifies e
    ensures e.Valid() && (r.Err? ==> Extends(old(e.heap), e.heap))
    ensures e.loaded == old(e.loaded) && e.openers == old(e.openers) && e.closed == old(e.closed)
    ensures var segs := Split(name);
      var t := Target(old(e.heap), e.globals, segs);
      (t.Err? ==> r.Err?) && (!Reaches(old(e.heap), e.globals, segs) ==> r == Err(NotATable)) &&
      (r.Ok? ==> t.Ok? && |e.stack| >= |old(e.stack)| && e.stack[..|old(e.stack)|] == old(e.stack) &&
                 Stored(old(e.heap), e.heap, t.value, Key(segs[|segs| - 1]), o))
    ensures r.Err? ==> r.error == NotATable || r.error == OverflowError || r.error == LuaError("table index is nil")
  {
    ghost var h0 := e.heap;
    ghost var s0 := e.stack;
    var nav, last := Navigate(e, name);
    if nav.Err? {
      NavigationFailed(h0, e.globals, name);
      return Err(NotATable);
    }
    Navigated(h0, e.globals, name, s0, e.stack);
    r := StoreField(e, name[last..], o);
  }

  /**
   * `State::setVariable` on a live handle: the value is pushed with `pushVar`
   * and stored by `lua_setglobal` or, for a dotted name, by `lua_settable`
   * into the table the segments before the last lead to; the stack top is
   * then restored. An error is raised with the stack as it is; the tables
   * `pushVar` built before it stay allocated.
   */
  method Assign(e: Engine, name: string, o: Object) returns (r: Result<()>)
    requires e.Valid()
    modifies e
    ensures e.Valid() && (r.Err? ==> Extends(old(e.heap), e.heap))
    ensures e.loaded == old(e.loaded) && e.openers == old(e.openers) && e.closed == old(e.closed)
    ensures var segs := Split(name);
      var t := Target(old(e.heap), e.globals, segs);
      (t.Err? ==> r.Err?) && (!Reaches(old(e.heap), e.globals, segs) ==> r == Err(NotATable)) &&
      (r.Ok? ==> t.Ok? && e.stack == old(e.stack) &&
                 Stored(old(e.heap), e.heap, t.value, Key(segs[|segs| - 1]), o))
    ensures r.Err? ==> r.error == NotATable || r.error == OverflowError || r.error == LuaError("table index is nil")
  {
    var s0 := e.stack;
    DottedSegments(name);
    if Find(name, 0).Some? {
      r := AssignDotted(e, name, o);
    } else {
      r := StoreGlobal(e, name, o);
    }
    if r.Ok? {
      Restore(e, s0);
    }
  }

  /** The closure `registerFunction` installs: the adapter with the function's address as its upvalue. */
  function Closure(func: nat, registered: FuncRef): LVal {
    LCFunction(registered, [LLightUserdata(func)])
  }

  /** The closure pushed: `lua_pushlightuserdata` then `lua_pushcclosure` with one upvalue. */
  method PushClosure(e: Engine, func: nat, registered: FuncRef)
    requires e.Valid()
    modifies e
    ensures e.Valid() && e.OnlyStack() && e.stack == old(e.stack) + [Closure(func, registered)]
  {
    e.PushLightUserdata(func);
    e.PushCClosure(registered, 1);
    assert e.stack == old(e.stack) + [Closure(func, registered)];
  }

  /** The write of `registerFunction` for a dotted name once its navigation succeeded. */
  method StoreClosureField(e: Engine, key: string, func: nat, registered: FuncRef) returns (r: Result<()>)
    requires e.Valid() && |e.stack| >= 1
    modifies e
    ensures e.Valid()
    ensures e.loaded == old(e.loaded) && e.openers == old(e.openers) && e.closed == old(e.closed)
    ensures var top := old(e.stack[|e.stack| - 1]);
      var room := |old(e.stack)| + 2 <= e.config.capacity;
      (r.Ok? <==> top.LTable? && top.ref in old(e.heap) && room) &&
      (r.Err? ==> e.heap == old(e.heap) && r.error == if room then NotATable else OverflowError) &&
      (r.Ok? ==> e.stack == old(e.stack) &&
                 e.heap == old(e.heap)[top.ref := RawSet(old(e.heap)[top.ref], Key(key), Closure(func, registered))])
  {
    assert RefsIn(e.stack[|e.stack| - 1], e.heap.Keys);
    r := GrowStack(e, 2);
    if r.Err? {
      return;
    }
    e.PushString(key);
    PushClosure(e, func, registered);
    r := e.SetTable(-3);
  }

  /** The write of `registerFunction` for an undotted name. */
  method StoreClosureGlobal(e: Engine, name: string, func: nat, registered: FuncRef) returns (r: Result<()>)
    requires e.Valid()
    modifies e
    ensures e.Valid()
    ensures e.loaded == old(e.loaded) && e.openers == old(e.openers) && e.closed == old(e.closed)
    ensures (r.Ok? <==> |old(e.stack)| + 2 <= e.config.capacity) &&
      (r.Err? ==> e.heap == old(e.heap) && r.error == OverflowError) &&
      (r.Ok? ==> e.stack == old(e.stack) &&
                 e.heap == old(e.heap)[e.globals := RawSet(old(e.heap)[e.globals], Key(name), Closure(func, registered))])
  {
    r := GrowStack(e, 2);
    if r.Err? {
      return;
    }
    PushClosure(e, func, registered);
    e.SetGlobal(name);
    assert e.stack == old(e.stack);
  }

  /** The navigation and the store of `registerFunction` for a dotted name, without the final `lua_settop`. */
  method RegisterDotted(e: Engine, name: string, func: nat, registered: FuncRef) returns (r: Result<()>)
    requires e.Valid() && Find(name, 0).Some?
    modifies e
    ensures e.Valid()
    ensures e.loaded == old(e.loaded) && e.openers == old(e.openers) && e.closed == old(e.closed)
    ensures var segs := Split(name);
      var t := Target(old(e.heap), e.globals, segs);
      var room := |old(e.stack)| + |segs| + 1 <= e.config.capacity;
      (r.Ok? <==> t.Ok? && room) &&
      (r.Err? ==> e.heap == old(e.heap) &&
                  r.error == if Reaches(old(e.heap), e.globals, segs) && !room then OverflowError else NotATable) &&
      (r.Ok? ==> |e.stack| >= |old(e.stack)| && e.stack[..|old(e.stack)|] == old(e.stack) &&
                 e.heap == old(e.heap)[t.value := RawSet(old(e.heap)[t.value], Key(segs[|segs| - 1]), Closure(func, registered))])
  {
    ghost var h0 := e.heap;
    ghost var s0 := e.stack;
    var nav, last := Navigate(e, name);
    if nav.Err? {
      NavigationFailed(h0, e.globals, name);
      return Err(NotATable);
    }
    Navigated(h0, e.globals, name, s0, e.stack);
    r := StoreClosureField(e, name[last..], func, registered);
  }

  /**
   * `internal::registerFunction` on a live handle: as `setVariable`, with
   * two slots asked for and the closure of `registered` over the light
   * userdata `func` as the value stored.
   */
  method Register(e: Engine, name: string, func: nat, registered: FuncRef) returns (r: Result<()>)
    requires e.Valid()
    modifies e
    ensures e.Valid()
    ensures e.loaded == old(e.loaded) && e.openers == old(e.openers) && e.closed == old(e.closed)
    ensures var segs := Split(name);
      var t := Target(old(e.heap), e.globals, segs);
      var room := |old(e.stack)| + |segs| + 1 <= e.config.capacity;
      (r.Ok? <==> t.Ok? && room) &&
      (r.Err? ==> e.heap == old(e.heap) &&
                  r.error == if Reaches(old(e.heap), e.globals, segs) && !room then OverflowError else NotATable) &&
      (r.Ok? ==> e.stack == old(e.stack) &&
                 e.heap == old(e.heap)[t.value := RawSet(old(e.heap)[t.value], Key(segs[|segs| - 1]), Closure(func, registered))])
  {
    var s0 := e.stack;
    DottedSegments(name);
    if Find(name, 0).Some? {
      r := RegisterDotted(e, name, func, registered);
    } else {
      r := StoreClosureGlobal(e, name, func, registered);
    }
    if r.Ok? {
      Restore(e, s0);
    }
  }

  lemma SnocAssoc<T>(a: seq<T>, b: seq<T>, x: T)
    ensures (a + b) + [x] == a + (b + [x])
  {
  }

  /** The lookups of a dotted name: the navigation, then `lua_getfield` of the last segment. */
  method LookUpDotted(e: Engine, name: string) returns (r: Result<()>)
    requires e.Valid() && Find(name, 0).Some?
    modifies e
    ensures e.Valid() && e.OnlyStack()
    ensures var segs := Split(name);
      var ch := Chain(e.heap, e.globals, segs, |segs|);
      (r.Ok? <==> ch.Ok?) && (r.Err? ==> r.error == ch.error) &&
      (r.Ok? ==> e.stack == old(e.stack) + ch.value)
  {
    ghost var s0 := e.stack;
    var last;
    r, last := Navigate(e, name);
    if r.Err? {
      NavigationFailed(e.heap, e.globals, name);
      return;
    }
    NavigatedRead(e.heap, e.globals, name, s0, e.stack);
    ghost var top := e.stack[|e.stack| - 1];
    assert RefsIn(top, e.heap.Keys) && e.Slot(-1) == Some(top);
    assert Key(name[last..]) == LString(CString(name[last..]));
    r := e.GetField(-1, name[last..]);
  }

  /**
   * The lookups of `State::getVariable`: `lua_getglobal` for an undotted name;
   * otherwise the navigation and a `lua_getfield` of the last segment. Every
   * value looked up stays on the stack.
   */
  method LookUp(e: Engine, name: string) returns (r: Result<()>)
    requires e.Valid()
    modifies e
    ensures e.Valid() && e.OnlyStack()
    ensures var segs := Split(name);
      var ch := Chain(e.heap, e.globals, segs, |segs|);
      (r.Ok? <==> ch.Ok?) && (r.Err? ==> r.error == ch.error) &&
      (r.Ok? ==> e.stack == old(e.stack) + ch.value)
  {
    DottedSegments(name);
    if Find(name, 0).Some? {
      r := LookUpDotted(e, name);
    } else {
      e.GetGlobal(name);
      r := Ok(());
    }
  }

  /** What `getVariable` returns: the value looked up, pulled with the ignore list and the default budget. */
  function ReadResult(c: Config, h: Heap, g: Ref, height: nat, segs: seq<string>, ignore: set<Object>): Result<Object>
    requires Closed(h) && g in h && |segs| >= 1
  {
    match Chain(h, g, segs, |segs|)
    case Err(x) => Err(x)
    case Ok(vs) =>
      ChainRefs(h, g, segs, |segs|);
      Convert(h, c.capacity - (height + |segs|), Some(vs[|segs| - 1]), ignore, MaxTableRecursion)
  }

  /** `getVariable` of an undotted name that is not a global reads nil. */
  lemma MissingGlobalReadsNil(c: Config, h: Heap, g: Ref, height: nat, name: string, ignore: set<Object>)
    requires Closed(h) && g in h && RawGet(h[g], Key(name)) == LNil
    ensures ReadResult(c, h, g, height, [name], ignore) == Ok(Nil)
  {
  }

  /** A lookup that fails is what `getVariable` raises. */
  lemma LookUpFailed(c: Config, h: Heap, g: Ref, height: nat, segs: seq<string>, ignore: set<Object>, r: Result<()>)
    requires Closed(h) && g in h && |segs| >= 1 && Chain(h, g, segs, |segs|).Err?
    requires r.Err? && r.error == Chain(h, g, segs, |segs|).error
    ensures Err(r.error) == ReadResult(c, h, g, height, segs, ignore)
  {
  }

  lemma TakeAppend<T>(a: seq<T>, b: seq<T>, n: nat)
    requires n <= |b|
    ensures (a + b)[..|a| + n] == a + b[..n]
  {
  }

  /** After a successful lookup the value of the last segment is on top, above the others. */
  lemma LookedUp(c: Config, h: Heap, g: Ref, height: nat, segs: seq<string>, ignore: set<Object>, room: int, top: LVal)
    requires Closed(h) && g in h && |segs| >= 1 && Chain(h, g, segs, |segs|).Ok?
    requires room == c.capacity - (height + |segs|) && top == Chain(h, g, segs, |segs|).value[|segs| - 1]
    ensures RefsIn(top, h.Keys)
    ensures ReadResult(c, h, g, height, segs, ignore) == Convert(h, room, Some(top), ignore, MaxTableRecursion)
  {
    ChainRefs(h, g, segs, |segs|);
    var vs := Chain(h, g, segs, |segs|).value;
    assert AllRefsIn(vs, h.Keys) && top == vs[|vs| - 1];
  }

  /** The stack after a successful lookup, with and without its top. */
  lemma LookedUpStack(s0: seq<LVal>, vs: seq<LVal>, stack: seq<LVal>)
    requires |vs| >= 1 && stack == s0 + vs
    ensures |stack| > |s0| && stack[..|s0|] == s0
    ensures stack[..|stack| - 1] == s0 + vs[..|vs| - 1]
  {
    TakeAppend(s0, vs, |vs| - 1);
    PrefixAppend(s0, vs);
  }

  /**
   * `State::getVariable` on a live handle, as written: after the pull only
   * the top slot is popped, so the values looked up for all segments but the
   * last stay behind on the stack.
   */
  method Read(e: Engine, name: string, ignore: set<Object>) returns (r: Result<Object>)
    requires e.Valid()
    modifies e
    ensures e.Valid() && e.OnlyStack() && Closed(e.heap)
    ensures var segs := Split(name);
      r == ReadResult(e.config, e.heap, e.globals, |old(e.stack)|, segs, ignore) &&
      (r.Ok? ==> e.stack == old(e.stack) + Chain(e.heap, e.globals, segs, |segs|).value[..|segs| - 1])
  {
    ghost var s0 := e.stack;
    ghost var vs;
    r, vs := PullVariable(e, name, ignore, s0);
    if r.Ok? {
      LookedUpStack(s0, vs, e.stack);
      e.Pop(1);
    }
  }

  /** `getVariable` with the stack top restored, as `setVariable` and `registerFunction` do. */
  method ReadRestoring(e: Engine, name: string, ignore: set<Object>) returns (r: Result<Object>)
    requires e.Valid()
    modifies e
    ensures e.Valid() && e.OnlyStack() && Closed(e.heap)
    ensures r == ReadResult(e.config, e.heap, e.globals, |old(e.stack)|, Split(name), ignore)
    ensures r.Ok? ==> e.stack == old(e.stack)
  {
    var s0 := e.stack;
    ghost var vs;
    r, vs := PullVariable(e, name, ignore, s0);
    if r.Ok? {
      LookedUpStack(s0, vs, e.stack);
      Restore(e, s0);
    }
  }

  /**
   * The lookup and the pull that `getVariable` begins with: the values of
   * every segment are left on the stack and the last one is converted.
   */
  method PullVariable(e: Engine, name: string, ignore: set<Object>, ghost s0: seq<LVal>)
    returns (r: Result<Object>, ghost vs: seq<LVal>)
    requires e.Valid() && s0 == e.stack
    modifies e
    ensures e.Valid() && e.OnlyStack() && Closed(e.heap)
    ensures r == ReadResult(e.config, e.heap, e.globals, |s0|, Split(name), ignore)
    ensures r.Ok? ==>
      vs == Chain(e.heap, e.globals, Split(name), |Split(name)|).value && |vs| >= 1 && e.stack == s0 + vs
  {
    HeapOkClosed(e.heap, e.nextRef);
    var found := LookUp(e, name);
    if found.Err? {
      LookUpFailed(e.config, e.heap, e.globals, |s0|, Split(name), ignore, found);
      r, vs := Err(found.error), [];
    } else {
      ghost var h, stack := e.heap, e.stack;
      vs := Chain(h, e.globals, Split(name), |Split(name)|).value;
      LastOfAppend(s0, vs, stack);
      r := PullTop(e, ignore, MaxTableRecursion, h, stack);
      LookedUp(e.config, h, e.globals, |s0|, Split(name), ignore, e.config.capacity - |stack|, stack[|stack| - 1]);
    }
  }

  /**
   * The leak of `getVariable` as written: reading `a.b` when the global `a`
   * is a table holding `b` succeeds, and `Read` then leaves the table `a`
   * on the stack.
   */
  lemma ReadLeavesTable(h: Heap)
    requires h == map[0 := [LPair(LString("a"), LTable(1))], 1 := [LPair(LString("b"), LNumber(1.0))]]
    ensures Closed(h) && Split("a.b") == ["a", "b"]
    ensures Chain(h, 0, Split("a.b"), 2) == Ok([LTable(1), LNumber(1.0)])
    ensures Chain(h, 0, Split("a.b"), 2).value[..|Split("a.b")| - 1] == [LTable(1)]
  {
    SplitAB();
    assert RawGet(h[0], Key("a")) == LTable(1) by {
      assert CString("a") == "a";
    }
    assert Chain(h, 0, ["a", "b"], 1) == Ok([LTable(1)]);
    assert RawGet(h[1], Key("b")) == LNumber(1.0) by {
      assert CString("b") == "b";
    }
    assert Chain(h, 0, ["a", "b"], 2) == Ok([LTable(1)] + [LNumber(1.0)]);
    assert [LTable(1)] + [LNumber(1.0)] == [LTable(1), LNumber(1.0)];
  }

  /** The dotted name "a.b" splits into its two segments. */
  lemma SplitAB()
    ensures Split("a.b") == ["a", "b"]
  {
    var s := "a.b";
    assert Find(s, 0) == Some(1);
    assert Find(s, 2) == None;
    SplitFromSome(s, 0, 1);
    SplitFromNone(s, 2);
    assert s[0..1] == "a" && s[2..3] == "b";
  }
}
