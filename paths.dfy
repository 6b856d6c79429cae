/**
 * Dotted variable names. `setVariable`, `getVariable` and `registerFunction`
 * cut a name at each '.' with a `std::string::find` loop: the text before the
 * first '.' names a global, each text between two dots a field, and the text
 * after the last '.' the field that is read or written.
 */
module Paths {
  import opened Options

  /** `s.find('.', from)`: the first '.' at or after `from`, None for `npos`. */
  function Find(s: string, from: nat): (p: Option<nat>)
    ensures p.Some? ==> from <= p.value < |s| && s[p.value] == '.'
    decreases |s| - from
  {
    if from >= |s| then None
    else if s[from] == '.' then Some(from)
    else Find(s, from + 1)
  }

  /** `find` passes over no '.' on its way. */
  lemma {:induction false} FindSkips(s: string, from: nat, j: nat)
    requires from <= j < |s|
    requires Find(s, from).Some? ==> j < Find(s, from).value
    ensures s[j] != '.'
    decreases |s| - from
  {
    if s[from] != '.' && from < j {
      FindSkips(s, from + 1, j);
    }
  }

  /** `find` stops at the first '.'. */
  lemma {:induction false} FindReaches(s: string, from: nat, k: nat)
    requires from <= k < |s| && s[k] == '.'
    requires forall j :: from <= j < k ==> s[j] != '.'
    ensures Find(s, from) == Some(k)
    decreases k - from
  {
    if from < k {
      FindReaches(s, from + 1, k);
    }
  }

  /** The pieces of `s[from..]` in the order the `find` loop visits them. */
  function SplitFrom(s: string, from: nat): (parts: seq<string>)
    requires from <= |s|
    ensures |parts| >= 1
    decreases |s| - from
  {
    match Find(s, from)
    case None => [s[from..]]
    case Some(p) => [s[from..p]] + SplitFrom(s, p + 1)
  }

  lemma SplitFromNone(s: string, from: nat)
    requires from <= |s| && Find(s, from).None?
    ensures SplitFrom(s, from) == [s[from..|s|]]
  {
    assert s[from..] == s[from..|s|];
  }

  lemma SplitFromSome(s: string, from: nat, p: nat)
    requires from <= |s| && Find(s, from) == Some(p)
    ensures SplitFrom(s, from) == [s[from..p]] + SplitFrom(s, p + 1)
  {
  }

  /** A name's segments; an undotted name is its only segment. */
  function Split(s: string): (parts: seq<string>)
    ensures |parts| >= 1
  {
    SplitFrom(s, 0)
  }

  /** The segments written back with a '.' between each two. */
  function Join(parts: seq<string>): string
    requires |parts| >= 1
  {
    if |parts| == 1 then parts[0] else parts[0] + "." + Join(parts[1..])
  }

  predicate DotFree(s: string) {
    forall j :: 0 <= j < |s| ==> s[j] != '.'
  }

  /** Joining the segments gives back the name. */
  lemma SplitJoin(s: string)
    ensures Join(Split(s)) == s
  {
    SplitFromJoin(s, 0);
  }

  lemma {:induction false} SplitFromJoin(s: string, from: nat)
    requires from <= |s|
    ensures Join(SplitFrom(s, from)) == s[from..]
    decreases |s| - from
  {
    match Find(s, from)
    case None =>
    case Some(p) =>
      SplitFromJoin(s, p + 1);
      var parts := SplitFrom(s, from);
      assert parts[1..] == SplitFrom(s, p + 1);
      assert s[from..] == s[from..p] + "." + s[p + 1..];
  }

  /** No segment contains a '.'. */
  lemma {:induction false} SplitFromDotFree(s: string, from: nat)
    requires from <= |s|
    ensures forall i :: 0 <= i < |SplitFrom(s, from)| ==> DotFree(SplitFrom(s, from)[i])
    decreases |s| - from
  {
    var parts := SplitFrom(s, from);
    match Find(s, from)
    case None =>
      forall j | 0 <= j < |s| - from ensures s[from..][j] != '.' {
        FindSkips(s, from, from + j);
      }
    case Some(p) =>
      SplitFromDotFree(s, p + 1);
      forall i | 0 <= i < |parts| ensures DotFree(parts[i]) {
        if i > 0 {
          assert parts[i] == SplitFrom(s, p + 1)[i - 1];
        } else {
          forall j | 0 <= j < p - from ensures s[from..p][j] != '.' {
            FindSkips(s, from, from + j);
          }
        }
      }
  }

  /** Splitting dot-free segments joined with dots gives back the segments. */
  lemma {:induction false} JoinSplit(parts: seq<string>)
    requires |parts| >= 1 && forall i :: 0 <= i < |parts| ==> DotFree(parts[i])
    ensures Split(Join(parts)) == parts
  {
    var p0 := parts[0];
    if |parts| > 1 {
      var rest := parts[1..];
      assert forall i :: 0 <= i < |rest| ==> rest[i] == parts[i + 1];
      JoinSplit(rest);
      var a := p0 + ".";
      var s := a + Join(rest);
      assert s == Join(parts);
      FindAfterDotFree(p0, Join(rest));
      SplitFromSome(s, 0, |p0|);
      SplitFromShift(a, Join(rest), 0);
      HeadSlice(p0, Join(rest));
      assert parts == [p0] + rest;
    } else {
      FindDotFree(p0, 0);
      SplitFromNone(p0, 0);
      assert p0[0..|p0|] == p0;
    }
  }

  lemma HeadSlice(p: string, rest: string)
    ensures (p + "." + rest)[0..|p|] == p
  {
  }

  lemma {:induction false} FindDotFree(s: string, from: nat)
    requires DotFree(s)
    ensures Find(s, from) == None
    decreases |s| - from
  {
    if from < |s| {
      FindDotFree(s, from + 1);
    }
  }

  lemma FindAfterDotFree(p: string, rest: string)
    requires DotFree(p)
    ensures Find(p + "." + rest, 0) == Some(|p|)
  {
    var s := p + "." + rest;
    assert s[|p|] == '.';
    assert forall j :: 0 <= j < |p| ==> s[j] == p[j];
    FindReaches(s, 0, |p|);
  }

  /** The loop sees the same pieces in a suffix as in the string after a prefix. */
  lemma {:induction false} SplitFromShift(a: string, b: string, i: nat)
    requires i <= |b|
    ensures SplitFrom(a + b, |a| + i) == SplitFrom(b, i)
    decreases |b| - i
  {
    FindShift(a, b, i);
    var f := Find(b, i);
    if f.None? {
      SplitFromNone(a + b, |a| + i);
      SplitFromNone(b, i);
      SliceShift(a, b, i, |b|);
      calc {
        SplitFrom(a + b, |a| + i);
        [(a + b)[|a| + i..|a| + |b|]];
        [b[i..|b|]];
      }
    } else {
      SplitFromShift(a, b, f.value + 1);
      SplitFromShiftStep(a, b, i, f.value);
    }
  }

  /** The step of `SplitFromShift`: the segment up to the '.' at `p` is the same in both, and so is the rest. */
  lemma SplitFromShiftStep(a: string, b: string, i: nat, p: nat)
    requires i <= p < |b| && Find(b, i) == Some(p) && Find(a + b, |a| + i) == Some(|a| + p)
    requires SplitFrom(a + b, |a| + p + 1) == SplitFrom(b, p + 1)
    ensures SplitFrom(a + b, |a| + i) == SplitFrom(b, i)
  {
    SplitFromSome(a + b, |a| + i, |a| + p);
    SplitFromSome(b, i, p);
    SliceShift(a, b, i, p);
  }

  lemma SliceShift<T>(a: seq<T>, b: seq<T>, i: nat, j: nat)
    requires i <= j <= |b|
    ensures (a + b)[|a| + i..|a| + j] == b[i..j]
  {
  }

  lemma {:induction false} FindShift(a: string, b: string, i: nat)
    ensures Find(b, i).None? ==> Find(a + b, |a| + i).None?
    ensures Find(b, i).Some? ==> Find(a + b, |a| + i) == Some(|a| + Find(b, i).value)
    decreases |b| - i
  {
    if i < |b| {
      assert (a + b)[|a| + i] == b[i];
      if b[i] != '.' {
        FindShift(a, b, i + 1);
      }
    }
  }

  /** A name is dotted exactly when it has two segments or more. */
  lemma DottedSegments(s: string)
    ensures Find(s, 0).Some? <==> |Split(s)| >= 2
    ensures Find(s, 0).None? ==> Split(s) == [s]
  {
    if Find(s, 0).None? {
      assert s[0..] == s;
    }
  }
}
