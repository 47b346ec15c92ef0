/**
  The JavaScript array operations the core is built from, as functions on
  sequences: `filter`, `map`, `reduce((a, b) => a.concat(b), [])` and `find`.
  Each is stated once here and its properties are proved once.
 */
module Seqs {
  import opened Wrappers

  /** `s.filter(keep)`: the elements `keep` accepts, in their original order. */
  function Filter<T>(keep: T -> bool, s: seq<T>): (r: seq<T>)
    ensures |r| <= |s|
    ensures forall x :: x in r ==> x in s && keep(x)
    ensures forall x :: x in s && keep(x) ==> x in r
  {
    if s == [] then []
    else
      assert forall x :: x in s ==> x == s[0] || x in s[1..];
      (if keep(s[0]) then [s[0]] else []) + Filter(keep, s[1..])
  }

  /** Filtering distributes over concatenation, so the relative order of kept elements is preserved. */
  lemma {:induction false} FilterAppend<T>(keep: T -> bool, a: seq<T>, b: seq<T>)
    ensures Filter(keep, a + b) == Filter(keep, a) + Filter(keep, b)
  {
    if a == [] {
      assert a + b == b;
    } else {
      assert (a + b)[0] == a[0];
      assert (a + b)[1..] == a[1..] + b;
      FilterAppend(keep, a[1..], b);
    }
  }

  /** A sequence whose every element is kept is returned unchanged. */
  lemma {:induction false} FilterKeepsAll<T>(keep: T -> bool, s: seq<T>)
    requires forall i :: 0 <= i < |s| ==> keep(s[i])
    ensures Filter(keep, s) == s
  {
    if s != [] {
      FilterKeepsAll(keep, s[1..]);
    }
  }

  /** `s.map(f)`: one image per element, position by position. */
  function Map<T, U>(f: T -> U, s: seq<T>): (r: seq<U>)
    ensures |r| == |s|
    ensures forall i :: 0 <= i < |s| ==> r[i] == f(s[i])
  {
    if s == [] then [] else [f(s[0])] + Map(f, s[1..])
  }

  /** The images of a map are exactly the images of the input's elements. */
  lemma MapMembership<T, U>(f: T -> U, s: seq<T>, y: U)
    ensures y in Map(f, s) <==> exists x :: x in s && y == f(x)
  {
    var r := Map(f, s);
    if y in r {
      var i :| 0 <= i < |r| && r[i] == y;
      assert s[i] in s && y == f(s[i]);
    }
    if exists x :: x in s && y == f(x) {
      var x :| x in s && y == f(x);
      var i :| 0 <= i < |s| && s[i] == x;
      assert r[i] == y;
    }
  }

  /** Mapping distributes over concatenation. */
  lemma MapAppend<T, U>(f: T -> U, a: seq<T>, b: seq<T>)
    ensures Map(f, a + b) == Map(f, a) + Map(f, b)
  {
    var l, r := Map(f, a + b), Map(f, a) + Map(f, b);
    assert |l| == |r|;
    forall i | 0 <= i < |l| ensures l[i] == r[i] {
      if i < |a| {
        assert (a + b)[i] == a[i];
      } else {
        assert (a + b)[i] == b[i - |a|];
      }
    }
  }

  /**
    `ss.reduce((a, b) => a.concat(b), [])`: the accumulator starts empty and
    each inner sequence is appended on the right, folding from the left.
   */
  function Flatten<T>(ss: seq<seq<T>>): (r: seq<T>)
    ensures forall x :: x in r ==> exists i :: 0 <= i < |ss| && x in ss[i]
    ensures forall i, x :: 0 <= i < |ss| && x in ss[i] ==> x in r
  {
    if ss == [] then []
    else
      var init, last := ss[..|ss| - 1], ss[|ss| - 1];
      assert forall i :: 0 <= i < |init| ==> init[i] == ss[i];
      Flatten(init) + last
  }

  /** The total length of a sequence of sequences. */
  function SumLengths<T>(ss: seq<seq<T>>): nat
  {
    if ss == [] then 0 else |ss[0]| + SumLengths(ss[1..])
  }

  /** Flattening distributes over concatenation of the outer sequence. */
  lemma {:induction false} FlattenAppend<T>(a: seq<seq<T>>, b: seq<seq<T>>)
    ensures Flatten(a + b) == Flatten(a) + Flatten(b)
  {
    if b == [] {
      assert a + b == a;
    } else {
      var b' := b[..|b| - 1];
      assert (a + b)[..|a + b| - 1] == a + b';
      assert (a + b)[|a + b| - 1] == b[|b| - 1];
      FlattenAppend(a, b');
    }
  }

  /** The left fold equals the cons-wise concatenation: the first inner sequence comes first. */
  lemma FlattenCons<T>(s: seq<T>, ss: seq<seq<T>>)
    ensures Flatten([s] + ss) == s + Flatten(ss)
  {
    FlattenAppend([s], ss);
    assert [s][..0] == [];
  }

  /** The flattened length is the sum of the inner lengths. */
  lemma {:induction false} FlattenLength<T>(ss: seq<seq<T>>)
    ensures |Flatten(ss)| == SumLengths(ss)
  {
    if ss != [] {
      assert ss == [ss[0]] + ss[1..];
      FlattenCons(ss[0], ss[1..]);
      FlattenLength(ss[1..]);
    }
  }

  /**
    The index `s.findIndex(p)` would return, with `-1` as `None`: the first
    position whose element satisfies `p`.
   */
  function FindIndex<T>(p: T -> bool, s: seq<T>): (r: Option<nat>)
    ensures r.Some? ==> r.value < |s| && p(s[r.value]) && forall j :: 0 <= j < r.value ==> !p(s[j])
    ensures r.None? ==> forall j :: 0 <= j < |s| ==> !p(s[j])
  {
    if s == [] then None
    else if p(s[0]) then Some(0)
    else match FindIndex(p, s[1..])
      case None => None
      case Some(i) => Some(i + 1)
  }

  /** `s.find(p)`, with `undefined` as `None`: the first element that satisfies `p`. */
  function Find<T>(p: T -> bool, s: seq<T>): (r: Option<T>)
    ensures r.None? <==> forall x :: x in s ==> !p(x)
    ensures r.Some? ==> r.value in s && p(r.value)
    ensures r.Some? ==> exists i :: 0 <= i < |s| && s[i] == r.value && forall j :: 0 <= j < i ==> !p(s[j])
  {
    match FindIndex(p, s)
    case None => None
    case Some(i) => Some(s[i])
  }

  /** The first-match index is determined by the first position that satisfies `p`. */
  lemma FindIndexIsFirst<T>(p: T -> bool, s: seq<T>, i: nat)
    requires i < |s| && p(s[i])
    requires forall j :: 0 <= j < i ==> !p(s[j])
    ensures FindIndex(p, s) == Some(i)
  {
    var r := FindIndex(p, s);
    assert r.Some?;
    assert !(r.value < i);
    assert !(i < r.value);
  }

  /** Inserting an element that `p` rejects anywhere in a sequence does not change what `find` returns. */
  lemma FindSkipsRejected<T>(p: T -> bool, a: seq<T>, x: T, b: seq<T>)
    requires !p(x)
    ensures Find(p, a + [x] + b) == Find(p, a + b)
  {
    var s, t := a + [x] + b, a + b;
    match FindIndex(p, t)
    case None =>
      forall j | 0 <= j < |s| ensures !p(s[j]) {
        if j < |a| { assert s[j] == t[j]; }
        else if j > |a| { assert s[j] == t[j - 1]; }
      }
    case Some(i) =>
      if i < |a| {
        forall j | 0 <= j < i ensures !p(s[j]) { assert s[j] == t[j]; }
        assert s[i] == t[i];
        FindIndexIsFirst(p, s, i);
      } else {
        forall j | 0 <= j < i + 1 ensures !p(s[j]) {
          if j < |a| { assert s[j] == t[j]; }
          else if j > |a| { assert s[j] == t[j - 1]; }
        }
        assert s[i + 1] == t[i];
        FindIndexIsFirst(p, s, i + 1);
      }
  }
}
