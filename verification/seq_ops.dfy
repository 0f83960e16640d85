/** Python list operations the feature builder relies on, with their exact
    semantics for out-of-range and non-positive arguments. */
module SeqOps {

  function Min(a: int, b: int): int
  {
    if a <= b then a else b
  }

  /** Python's `[x] * n`: n copies of x, and the empty list when n is not positive. */
  function Repeat<T>(x: T, n: int): (r: seq<T>)
    ensures |r| == if n > 0 then n else 0
    ensures forall i :: 0 <= i < |r| ==> r[i] == x
    decreases if n > 0 then n else 0
  {
    if n <= 0 then [] else Repeat(x, n - 1) + [x]
  }

  /** Python's `s[k:]`. The start index is normalised the way CPython does it:
      a negative k counts from the end and is clamped at 0, a non-negative k
      is clamped at |s|. The result is the suffix of s whose length the
      ensures clauses give. */
  function SliceFrom<T>(s: seq<T>, k: int): (r: seq<T>)
    ensures |r| == if k < 0 then Min(-k, |s|) else if k < |s| then |s| - k else 0
    ensures r == s[|s| - |r|..]
  {
    var start := if k < 0 then (if |s| + k < 0 then 0 else |s| + k) else Min(k, |s|);
    s[start..]
  }

  /** Number of occurrences of x in s. */
  function Count<T(==)>(s: seq<T>, x: T): nat
    decreases |s|
  {
    if s == [] then 0 else Count(s[..|s| - 1], x) + (if s[|s| - 1] == x then 1 else 0)
  }

  /** Python's `sum(s)`. */
  function Sum(s: seq<int>): int
    decreases |s|
  {
    if s == [] then 0 else Sum(s[..|s| - 1]) + s[|s| - 1]
  }

  /** Python's `max(s)`, defined only on a non-empty list. */
  function Max(s: seq<int>): (m: int)
    requires |s| > 0
    ensures m in s
    ensures forall i :: 0 <= i < |s| ==> s[i] <= m
    decreases |s|
  {
    if |s| == 1 then s[0]
    else
      var m' := Max(s[..|s| - 1]);
      assert m' in s by { assert m' in s[..|s| - 1]; }
      if s[|s| - 1] > m' then s[|s| - 1] else m'
  }

  lemma {:induction false} CountAppend<T>(a: seq<T>, b: seq<T>, x: T)
    ensures Count(a + b, x) == Count(a, x) + Count(b, x)
    decreases |b|
  {
    if b == [] {
      assert a + b == a;
    } else {
      assert (a + b)[..|a + b| - 1] == a + b[..|b| - 1];
      CountAppend(a, b[..|b| - 1], x);
    }
  }

  lemma {:induction false} CountRepeat<T>(y: T, n: int, x: T)
    ensures Count(Repeat(y, n), x) == if y == x && n > 0 then n else 0
    decreases if n > 0 then n else 0
  {
    if n > 0 {
      assert Repeat(y, n)[..n - 1] == Repeat(y, n - 1);
      CountRepeat(y, n - 1, x);
    }
  }

  lemma {:induction false} SumAppend(a: seq<int>, b: seq<int>)
    ensures Sum(a + b) == Sum(a) + Sum(b)
    decreases |b|
  {
    if b == [] {
      assert a + b == a;
    } else {
      assert (a + b)[..|a + b| - 1] == a + b[..|b| - 1];
      SumAppend(a, b[..|b| - 1]);
    }
  }

  lemma {:induction false} SumRepeat(y: int, n: nat)
    ensures Sum(Repeat(y, n)) == y * n
  {
    if n > 0 {
      var r := Repeat(y, n);
      assert r[..n - 1] == Repeat(y, n - 1);
      assert Sum(r) == Sum(r[..n - 1]) + y;
      SumRepeat(y, n - 1);
      assert y * (n - 1) + y == y * n;
    }
  }
}
