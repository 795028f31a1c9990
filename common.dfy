/** Definitions shared by every part of the tracker model. */
module Common {

  datatype Option<+T> = None | Some(value: T)

  /**
   * Python's `float(...)` applied to a string: a partial function onto the
   * reals. It is a parameter of the model, so no proof depends on IEEE
   * floating point; `None` stands for the `ValueError` that float raises.
   */
  type Parser = string -> Option<real>

  function Min(a: int, b: int): int
  {
    if a <= b then a else b
  }

  /** The slice `s[:n]`, and `DataFrame.head(n)`: the first n elements, or all of them when there are fewer. */
  function Take<T>(s: seq<T>, n: nat): (r: seq<T>)
    ensures |r| == Min(n, |s|) && r == s[..|r|]
  {
    if |s| <= n then s else s[..n]
  }

  /** `a` is what remains of `b` after deleting some of its elements; the rest keep their order. */
  predicate IsSubsequence<T(==)>(a: seq<T>, b: seq<T>)
    decreases |b|
  {
    a == [] || (b != [] && ((a[0] == b[0] && IsSubsequence(a[1..], b[1..])) || IsSubsequence(a, b[1..])))
  }

  lemma {:induction false} SubsequenceRefl<T>(a: seq<T>)
    ensures IsSubsequence(a, a)
    decreases |a|
  {
    if a != [] {
      SubsequenceRefl(a[1..]);
    }
  }

  /** Appending an element to the longer sequence keeps a subsequence one. */
  lemma {:induction false} SubsequenceExtend<T>(a: seq<T>, b: seq<T>, x: T)
    requires IsSubsequence(a, b)
    ensures IsSubsequence(a, b + [x])
    decreases |b|
  {
    if a != [] {
      assert (b + [x])[1..] == b[1..] + [x];
      if a[0] == b[0] && IsSubsequence(a[1..], b[1..]) {
        SubsequenceExtend(a[1..], b[1..], x);
      } else {
        SubsequenceExtend(a, b[1..], x);
      }
    }
  }

  lemma {:induction false} SubsequenceLast<T>(b: seq<T>, x: T)
    ensures IsSubsequence([x], b + [x])
    decreases |b|
  {
    if b == [] {
      assert IsSubsequence([x][1..], [x][1..]);
    } else {
      assert (b + [x])[1..] == b[1..] + [x];
      SubsequenceLast(b[1..], x);
    }
  }

  /** Appending the same element to both sequences keeps a subsequence one. */
  lemma {:induction false} SubsequenceSnoc<T>(a: seq<T>, b: seq<T>, x: T)
    requires IsSubsequence(a, b)
    ensures IsSubsequence(a + [x], b + [x])
    decreases |b|
  {
    if a == [] {
      assert a + [x] == [x];
      SubsequenceLast(b, x);
    } else {
      assert (b + [x])[1..] == b[1..] + [x];
      assert (a + [x])[0] == a[0] && (a + [x])[1..] == a[1..] + [x];
      if a[0] == b[0] && IsSubsequence(a[1..], b[1..]) {
        SubsequenceSnoc(a[1..], b[1..], x);
      } else {
        SubsequenceSnoc(a, b[1..], x);
      }
    }
  }
}
