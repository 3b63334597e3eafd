/** A bounded history that evicts its oldest element first. */
module CircularBuffer {
  import opened Common

  datatype Buffer<T> = Buffer(values: seq<T>, maxSize: int) {

    /** What construction establishes and every push keeps. */
    ghost predicate Valid() {
      maxSize >= 1 && |values| <= maxSize
    }

    /** Append; when that goes over capacity, drop the oldest element. */
    function Push(x: T): (r: Buffer<T>)
      ensures r.maxSize == maxSize
      ensures Valid() ==> r.Valid()
      ensures |values| < maxSize ==> r.values == values + [x]
      ensures Valid() && |values| == maxSize ==> r.values == values[1..] + [x]
      ensures Valid() ==> r.values == Last(values + [x], maxSize)
    {
      var next := values + [x];
      if |next| > maxSize then Buffer(next[1..], maxSize) else Buffer(next, maxSize)
    }

    function Clear(): (r: Buffer<T>)
      ensures r.Size() == 0
      ensures r.maxSize == maxSize
    {
      Buffer([], maxSize)
    }

    /** The contents, oldest first; never more than the capacity. */
    function ToArray(): (r: seq<T>)
      ensures Valid() ==> |r| <= maxSize
    {
      values
    }

    function Size(): (n: nat)
      ensures n == |ToArray()|
    {
      |values|
    }
  }

  /** A fresh buffer; a requested capacity below 1 still holds one element. */
  function New<T>(maxSize: int): (b: Buffer<T>)
    ensures b.Valid()
    ensures b.Size() == 0
    ensures b.maxSize == Max(1, maxSize)
    ensures maxSize >= 1 ==> b.maxSize == maxSize
  {
    Buffer([], Max(1, maxSize))
  }

  /** Push every element of `s`, first to last. */
  function PushAll<T>(b: Buffer<T>, s: seq<T>): Buffer<T>
    decreases |s|
  {
    if |s| == 0 then b else PushAll(b.Push(s[0]), s[1..])
  }

  lemma LastStep<T>(a: seq<T>, x: T, n: nat)
    requires n >= 1
    ensures Last(Last(a, n) + [x], n) == Last(a + [x], n)
  {
  }

  /** Pushing a sequence leaves the newest `maxSize` of everything pushed so far. */
  lemma {:induction false} PushAllWindow<T>(b: Buffer<T>, s: seq<T>)
    requires b.Valid()
    ensures PushAll(b, s).Valid()
    ensures PushAll(b, s).maxSize == b.maxSize
    ensures PushAll(b, s).values == Last(b.values + s, b.maxSize)
    decreases |s|
  {
    if |s| == 0 {
      assert b.values + s == b.values;
    } else {
      var b1 := b.Push(s[0]);
      PushAllWindow(b1, s[1..]);
      assert s == [s[0]] + s[1..];
      WindowStep(b.values, s[0], s[1..], b.maxSize);
    }
  }

  lemma WindowStep<T>(values: seq<T>, x: T, rest: seq<T>, n: nat)
    requires n >= 1
    ensures Last(Last(values + [x], n) + rest, n) == Last(values + ([x] + rest), n)
  {
    LastConcat(values + [x], rest, n);
    assert values + [x] + rest == values + ([x] + rest);
  }

  /** Windowing before appending more does not change the final window. */
  lemma {:induction false} LastConcat<T>(a: seq<T>, s: seq<T>, n: nat)
    requires n >= 1
    ensures Last(Last(a, n) + s, n) == Last(a + s, n)
    decreases |s|
  {
    if |s| == 0 {
      assert Last(a, n) + s == Last(a, n);
      assert a + s == a;
    } else {
      var init := s[..|s| - 1];
      var x := s[|s| - 1];
      LastConcat(a, init, n);
      assert Last(a, n) + s == (Last(a, n) + init) + [x];
      assert a + s == (a + init) + [x];
      LastStep(Last(a, n) + init, x, n);
      LastStep(a + init, x, n);
    }
  }

  /** Pushing `s` onto an empty buffer of capacity `n` keeps the last
      min(|s|, n) elements of `s`, in order. */
  lemma PushAllFromEmpty<T>(maxSize: int, s: seq<T>)
    ensures PushAll(New<T>(maxSize), s).ToArray() == Last(s, Max(1, maxSize))
    ensures PushAll(New<T>(maxSize), s).Size() == Min(|s|, Max(1, maxSize))
  {
    var b := New<T>(maxSize);
    PushAllWindow(b, s);
    assert b.values + s == s;
    var r := PushAll(b, s);
    assert r.values == Last(s, b.maxSize);
    assert |r.values| == Min(|s|, b.maxSize);
  }

  /** Capacity 3, pushes 1, 2, 3, 4: the buffer reads [2, 3, 4]. */
  lemma DropsOldestWhenFull()
    ensures PushAll(New<int>(3), [1, 2, 3, 4]).ToArray() == [2, 3, 4]
  {
    PushAllFromEmpty(3, [1, 2, 3, 4]);
    assert [1, 2, 3, 4][1..] == [2, 3, 4];
  }
}
