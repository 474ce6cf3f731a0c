/** Small value types and the string operations of the host language that the
    Gerber reader relies on: clamping slices, prefix tests and counting. */
module Common {

  datatype Option<T> = None | Some(value: T)

  datatype Result<T, E> = Ok(value: T) | Err(error: E)

  /** Resolves one bound of a slice the way Python does: a negative index counts
      from the end, and the result is clamped into [0, n]. */
  function ClampIndex(i: int, n: nat): (k: nat)
    ensures k <= n
    ensures 0 <= i <= n ==> k == i
    ensures i < 0 && 0 <= n + i ==> k == n + i
    ensures n + i < 0 ==> k == 0
    ensures n < i ==> k == n
  {
    if i < 0 then (if n + i < 0 then 0 else n + i)
    else if n < i then n
    else i
  }

  /** Python's `s[i:j]`: never fails, bounds are resolved by ClampIndex and a
      stop at or before the start gives the empty slice. */
  function Slice<T>(s: seq<T>, i: int, j: int): (r: seq<T>)
    ensures |r| <= |s|
    ensures 0 <= i <= j <= |s| ==> r == s[i..j]
    ensures 0 <= |s| + i && i <= j < 0 ==> r == s[|s| + i..|s| + j]
    ensures 0 <= j <= i ==> r == []
    ensures 0 <= i <= |s| <= j ==> r == s[i..]
    ensures |s| + i < 0 && j < 0 && 0 <= |s| + j ==> r == s[..|s| + j]
    ensures |s| + i < 0 && 0 <= j <= |s| ==> r == s[..j]
    ensures 0 <= i <= |s| + j && j < 0 ==> r == s[i..|s| + j]
    ensures i < 0 && 0 <= |s| + i <= j <= |s| ==> r == s[|s| + i..j]
    ensures |s| <= i ==> r == []
    ensures j + |s| <= 0 ==> r == []
    ensures (if j < 0 then |s| + j else j) <= (if i < 0 then |s| + i else i) ==> r == []
    ensures i < 0 && 0 <= |s| + i && |s| <= j ==> r == s[|s| + i..]
    ensures |s| + i < 0 && |s| <= j ==> r == s
  {
    var a := ClampIndex(i, |s|);
    var b := ClampIndex(j, |s|);
    if b <= a then [] else s[a..b]
  }

  /** The prefix of length `i + 1` extends the prefix of length `i` by one. */
  lemma PrefixSnoc<T>(s: seq<T>, i: nat)
    requires i < |s|
    ensures s[..i + 1] == s[..i] + [s[i]]
  {
  }

  /** Python's `s.startswith(p)`. */
  predicate StartsWith<T(==)>(s: seq<T>, p: seq<T>)
  {
    |p| <= |s| && s[..|p|] == p
  }

  /** Number of occurrences of `x` in `s`. */
  function Count<T(==)>(s: seq<T>, x: T): (n: nat)
    ensures n <= |s|
    ensures n == 0 <==> x !in s
  {
    if s == [] then 0
    else Count(s[..|s| - 1], x) + (if s[|s| - 1] == x then 1 else 0)
  }
}
