/**
 * Properties of `lua::Object`'s comparison operators: `operator<` is a strict
 * total order (so a `std::map` or `std::set` keyed by Objects is well defined,
 * and two keys are equivalent exactly when they are equal), `operator==` is
 * structural equality, and the other four operators are the expected
 * combinations of the two.
 */
module ObjectOrder {
  import opened LuaObject

  // Strings

  lemma {:induction false} StringLessIrreflexive(s: string)
    ensures !StringLess(s, s)
  {
    if |s| > 0 {
      StringLessIrreflexive(s[1..]);
    }
  }

  lemma {:induction false} StringLessAsymmetric(s: string, t: string)
    ensures !(StringLess(s, t) && StringLess(t, s))
  {
    if |s| > 0 && |t| > 0 && s[0] == t[0] {
      StringLessAsymmetric(s[1..], t[1..]);
    }
  }

  lemma {:induction false} StringLessTotal(s: string, t: string)
    ensures s == t || StringLess(s, t) || StringLess(t, s)
  {
    if |s| > 0 && |t| > 0 && s[0] == t[0] {
      StringLessTotal(s[1..], t[1..]);
      if s[1..] == t[1..] {
        assert s == [s[0]] + s[1..] && t == [t[0]] + t[1..];
      }
    }
  }

  lemma {:induction false} StringLessTransitive(s: string, t: string, u: string)
    requires StringLess(s, t) && StringLess(t, u)
    ensures StringLess(s, u)
  {
    if |s| > 0 && |t| > 0 && |u| > 0 && s[0] == t[0] && t[0] == u[0] {
      StringLessTransitive(s[1..], t[1..], u[1..]);
    }
  }

  // Tables: one step of the lexicographic comparison

  /** `std::pair` ordering on table entries: key first, then value. */
  predicate PairLess(p: Pair, q: Pair) {
    Less(p.key, q.key) || (!Less(q.key, p.key) && Less(p.value, q.value))
  }

  lemma TableLessStep(s: seq<Pair>, t: seq<Pair>, i: nat)
    requires i < |s| && i < |t|
    ensures TableLess(s, t, i) == (PairLess(s[i], t[i]) || (!PairLess(t[i], s[i]) && TableLess(s, t, i + 1)))
  {
  }

  // Irreflexivity

  lemma {:induction false} LessIrreflexive(a: Object)
    ensures !Less(a, a)
    decreases a, 1
  {
    match a
    case String(s) => StringLessIrreflexive(s);
    case Table(s) => TableLessIrreflexive(s, 0);
    case _ =>
  }

  lemma {:induction false} TableLessIrreflexive(s: seq<Pair>, i: nat)
    requires i <= |s|
    ensures !TableLess(s, s, i)
    decreases Table(s), 0, |s| - i
  {
    if i < |s| {
      LessIrreflexive(s[i].key);
      LessIrreflexive(s[i].value);
      TableLessIrreflexive(s, i + 1);
      TableLessStep(s, s, i);
    }
  }

  // Asymmetry

  lemma {:induction false} LessAsymmetric(a: Object, b: Object)
    ensures !(Less(a, b) && Less(b, a))
    decreases a, 1
  {
    if a.GetType() == b.GetType() {
      match a
      case String(s) => StringLessAsymmetric(s, b.str);
      case Table(s) => TableLessAsymmetric(s, b.entries, 0);
      case _ =>
    }
  }

  lemma {:induction false} TableLessAsymmetric(s: seq<Pair>, t: seq<Pair>, i: nat)
    requires i <= |s| && i <= |t|
    ensures !(TableLess(s, t, i) && TableLess(t, s, i))
    decreases Table(s), 0, |s| - i
  {
    if i < |s| && i < |t| {
      LessAsymmetric(s[i].key, t[i].key);
      LessAsymmetric(s[i].value, t[i].value);
      TableLessAsymmetric(s, t, i + 1);
      TableLessStep(s, t, i);
      TableLessStep(t, s, i);
    }
  }

  // Totality

  lemma {:induction false} LessTotal(a: Object, b: Object)
    ensures a == b || Less(a, b) || Less(b, a)
    decreases a, 1
  {
    if a.GetType() == b.GetType() {
      match a
      case String(s) => StringLessTotal(s, b.str);
      case Table(s) =>
        TableLessTotal(s, b.entries, 0);
        assert s[0..] == s && b.entries[0..] == b.entries;
      case _ =>
    }
  }

  lemma {:induction false} TableLessTotal(s: seq<Pair>, t: seq<Pair>, i: nat)
    requires i <= |s| && i <= |t|
    ensures s[i..] == t[i..] || TableLess(s, t, i) || TableLess(t, s, i)
    decreases Table(s), 0, |s| - i
  {
    if i < |s| && i < |t| {
      var p, q := s[i], t[i];
      TableLessStep(s, t, i);
      TableLessStep(t, s, i);
      LessTotal(p.key, q.key);
      LessTotal(p.value, q.value);
      LessIrreflexive(p.key);
      if p == q {
        TableLessTotal(s, t, i + 1);
        assert s[i..] == [p] + s[i + 1..] && t[i..] == [q] + t[i + 1..];
      }
    }
  }

  /** Two keys are equivalent in the ordering exactly when they are equal. */
  lemma EquivalenceIsEquality(a: Object, b: Object)
    ensures (!Less(a, b) && !Less(b, a)) <==> a == b
  {
    LessTotal(a, b);
    LessIrreflexive(a);
  }

  lemma PairEquivalenceIsEquality(p: Pair, q: Pair)
    ensures (!PairLess(p, q) && !PairLess(q, p)) <==> p == q
  {
    EquivalenceIsEquality(p.key, q.key);
    EquivalenceIsEquality(p.value, q.value);
  }

  // Transitivity

  lemma {:induction false} LessTransitive(a: Object, b: Object, c: Object)
    requires Less(a, b) && Less(b, c)
    ensures Less(a, c)
    decreases a, 1
  {
    if a.GetType() == b.GetType() && b.GetType() == c.GetType() {
      match a
      case String(s) => StringLessTransitive(s, b.str, c.str);
      case Table(s) => TableLessTransitive(s, b.entries, c.entries, 0);
      case _ =>
    }
  }

  lemma {:induction false} PairLessTransitive(p: Pair, q: Pair, r: Pair)
    requires PairLess(p, q) && PairLess(q, r)
    ensures PairLess(p, r)
    decreases p, 0
  {
    EquivalenceIsEquality(p.key, q.key);
    EquivalenceIsEquality(q.key, r.key);
    LessIrreflexive(p.key);
    LessAsymmetric(p.key, r.key);
    if Less(p.key, q.key) && Less(q.key, r.key) {
      LessTransitive(p.key, q.key, r.key);
    } else if p.key == q.key && q.key == r.key {
      LessTransitive(p.value, q.value, r.value);
    }
  }

  lemma {:induction false} TableLessTransitive(s: seq<Pair>, t: seq<Pair>, u: seq<Pair>, i: nat)
    requires i <= |s| && i <= |t| && i <= |u|
    requires TableLess(s, t, i) && TableLess(t, u, i)
    ensures TableLess(s, u, i)
    decreases Table(s), 0, |s| - i
  {
    if i < |s| && i < |t| && i < |u| {
      var p, q, r := s[i], t[i], u[i];
      TableLessStep(s, t, i);
      TableLessStep(t, u, i);
      TableLessStep(s, u, i);
      PairEquivalenceIsEquality(p, q);
      PairEquivalenceIsEquality(q, r);
      if PairLess(p, q) && PairLess(q, r) {
        PairLessTransitive(p, q, r);
        assert PairLess(p, r);
      } else if p == q && q == r {
        TableLessTransitive(s, t, u, i + 1);
        PairEquivalenceIsEquality(p, r);
      }
    }
  }

  /** Exactly one of `a < b`, `a == b`, `b < a` holds. */
  lemma Trichotomy(a: Object, b: Object)
    ensures Less(a, b) ==> a != b && !Less(b, a)
    ensures a == b ==> !Less(a, b) && !Less(b, a)
    ensures a == b || Less(a, b) || Less(b, a)
  {
    LessIrreflexive(a);
    LessAsymmetric(a, b);
    LessTotal(a, b);
  }

  // Equality

  lemma {:induction false} EqualIsIdentity(a: Object, b: Object)
    ensures Equal(a, b) <==> a == b
    decreases a, 1
  {
    match a
    case Table(s) =>
      if b.Table? && |s| == |b.entries| {
        TableEqualIsIdentity(s, b.entries, 0);
        assert s[0..] == s && b.entries[0..] == b.entries;
      }
    case _ =>
  }

  lemma {:induction false} TableEqualIsIdentity(s: seq<Pair>, t: seq<Pair>, i: nat)
    requires i <= |s| == |t|
    ensures TableEqual(s, t, i) <==> s[i..] == t[i..]
    decreases Table(s), 0, |s| - i
  {
    if i < |s| {
      EqualIsIdentity(s[i].key, t[i].key);
      EqualIsIdentity(s[i].value, t[i].value);
      TableEqualIsIdentity(s, t, i + 1);
      assert s[i..] == [s[i]] + s[i + 1..] && t[i..] == [t[i]] + t[i + 1..];
    }
  }

  /** The derived operators agree with the order and equality they are built from. */
  lemma DerivedOperators(a: Object, b: Object)
    ensures NotEqual(a, b) <==> a != b
    ensures Greater(a, b) <==> Less(b, a)
    ensures LessEq(a, b) <==> Less(a, b) || a == b
    ensures GreaterEq(a, b) <==> Less(b, a) || a == b
  {
    EqualIsIdentity(a, b);
    Trichotomy(a, b);
  }

  /** Objects of different kinds are ordered by their kind tag alone. */
  lemma KindsOrderedByTag(a: Object, b: Object)
    requires a.GetType() != b.GetType()
    ensures Less(a, b) <==> a.GetType() < b.GetType()
  {
  }

  /** Nil < numbers < strings < tables < functions < booleans, and false < true. */
  lemma KindChain(x: real, s: string, m: seq<Pair>, f: FuncRef)
    ensures Less(Nil, Number(x)) && Less(Number(x), String(s)) && Less(String(s), Table(m))
    ensures Less(Table(m), Function(f)) && Less(Function(f), Boolean(false))
    ensures Less(Boolean(false), Boolean(true)) && !Less(Boolean(true), Boolean(false))
  {
  }
}
