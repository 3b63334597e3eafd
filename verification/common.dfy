/** Small generic building blocks shared by every other module: an optional
    value, integer min/max, the "last n elements" window, order-preserving
    filtering and the suffix relation. */
module Common {

  /** JavaScript's `undefined`-or-value, and "absent key" in an options object. */
  datatype Option<+T> = None | Some(value: T)

  function Min(a: int, b: int): int { if a <= b then a else b }

  function Max(a: int, b: int): int { if a >= b then a else b }

  /** The last `n` elements of `s`, or all of `s` when it is shorter. */
  function Last<T>(s: seq<T>, n: nat): (r: seq<T>)
    ensures |r| == Min(|s|, n)
    ensures r == s[|s| - |r|..]
  {
    if |s| <= n then s else s[|s| - n..]
  }

  /** `a` is a (not necessarily proper) suffix of `b`. */
  ghost predicate IsSuffix<T>(a: seq<T>, b: seq<T>) {
    |a| <= |b| && b[|b| - |a|..] == a
  }

  lemma SuffixExtend<T>(a: seq<T>, b: seq<T>, x: T)
    requires IsSuffix(a, b)
    ensures IsSuffix(a + [x], b + [x])
  {
    assert (b + [x])[|b + [x]| - |a + [x]|..] == b[|b| - |a|..] + [x];
  }

  lemma SuffixTrans<T>(a: seq<T>, b: seq<T>, c: seq<T>)
    requires IsSuffix(a, b) && IsSuffix(b, c)
    ensures IsSuffix(a, c)
  {
    assert c[|c| - |a|..] == c[|c| - |b|..][|b| - |a|..];
  }

  lemma LastIsSuffix<T>(s: seq<T>, n: nat)
    ensures IsSuffix(Last(s, n), s)
  {
  }

  /** The elements of `s` that `keep` accepts, in their original order. */
  function Filter<T>(s: seq<T>, keep: T -> bool): (r: seq<T>)
    ensures |r| <= |s|
    ensures forall i :: 0 <= i < |r| ==> r[i] in s && keep(r[i])
    ensures forall i :: 0 <= i < |s| && keep(s[i]) ==> s[i] in r
  {
    if |s| == 0 then []
    else (if keep(s[0]) then [s[0]] else []) + Filter(s[1..], keep)
  }

  /** Filtering commutes with concatenation: relative order is preserved. */
  lemma {:induction false} FilterAppend<T>(a: seq<T>, b: seq<T>, keep: T -> bool)
    ensures Filter(a + b, keep) == Filter(a, keep) + Filter(b, keep)
  {
    if |a| == 0 {
      assert a + b == b;
    } else {
      assert (a + b)[1..] == a[1..] + b;
      FilterAppend(a[1..], b, keep);
    }
  }

  /** Filtering with a predicate that accepts every element is the identity. */
  lemma {:induction false} FilterAll<T>(s: seq<T>, keep: T -> bool)
    requires forall i :: 0 <= i < |s| ==> keep(s[i])
    ensures Filter(s, keep) == s
  {
    if |s| > 0 {
      FilterAll(s[1..], keep);
    }
  }

  function Map<T, U>(s: seq<T>, f: T -> U): (r: seq<U>)
    ensures |r| == |s|
    ensures forall i :: 0 <= i < |s| ==> r[i] == f(s[i])
  {
    if |s| == 0 then [] else [f(s[0])] + Map(s[1..], f)
  }

  /** Mapping then filtering a non-empty sequence: the head's image, if kept,
      in front of the tail's. */
  lemma FilterMapCons<T, U>(s: seq<T>, f: T -> U, keep: U -> bool)
    requires |s| > 0
    ensures Filter(Map(s, f), keep) == (if keep(f(s[0])) then [f(s[0])] else []) + Filter(Map(s[1..], f), keep)
  {
    assert Map(s, f)[1..] == Map(s[1..], f);
  }

  /** All the pieces concatenated, first to last. */
  function Flatten<T>(pieces: seq<seq<T>>): seq<T> {
    if |pieces| == 0 then [] else Flatten(pieces[..|pieces| - 1]) + pieces[|pieces| - 1]
  }
}
