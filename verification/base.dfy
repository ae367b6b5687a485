/** Shared building blocks: optional values, results that may carry the
    run-time fault the JavaScript engine would raise, powers of two and the
    integer base-2 logarithm that sizes every elimination bracket. */
module Base {

  datatype Option<+T> = None | Some(value: T)

  /** A run-time TypeError the JavaScript would raise, tagged with the line of
      lib/Algorithms.js where it happens. */
  datatype Fault = TypeError(line: nat)

  datatype Result<+T> = Ok(value: T) | Err(fault: Fault)

  function Pow2(k: nat): (r: nat)
    ensures r >= 1
  {
    if k == 0 then 1 else 2 * Pow2(k - 1)
  }

  lemma Pow2Monotone(i: nat, j: nat)
    requires i <= j
    ensures Pow2(i) <= Pow2(j)
  {
    if i < j {
      Pow2Monotone(i, j - 1);
    }
  }

  lemma {:induction false} Pow2Add(i: nat, j: nat)
    ensures Pow2(i + j) == Pow2(i) * Pow2(j)
  {
    if j > 0 {
      Pow2Add(i, j - 1);
      assert Pow2(i + j) == 2 * Pow2(i + j - 1);
    }
  }

  lemma Pow2Small(k: nat)
    ensures k <= 1 ==> Pow2(k) <= 2
    ensures k >= 1 ==> Pow2(k) == 2 * Pow2(k - 1)
  {
  }

  /** Floor of the base-2 logarithm: the exponent of the largest power of two
      not exceeding n. */
  function Log2(n: nat): (k: nat)
    requires n >= 1
    ensures Pow2(k) <= n < 2 * Pow2(k)
  {
    if n < 2 then 0 else 1 + Log2(n / 2)
  }

  /** The exponent is the only one that brackets n between two consecutive
      powers of two. */
  lemma {:induction false} Log2Unique(n: nat, k: nat)
    requires n >= 1
    requires Pow2(k) <= n < 2 * Pow2(k)
    ensures Log2(n) == k
  {
    var j := Log2(n);
    if j < k {
      Pow2Monotone(j + 1, k);
    } else if k < j {
      Pow2Monotone(k + 1, j);
    }
  }

  /** Position of the first occurrence of v in s. */
  function IndexOf(s: seq<int>, v: int): (i: nat)
    requires v in s
    ensures i < |s| && s[i] == v
    ensures forall j :: 0 <= j < i ==> s[j] != v
  {
    if s[0] == v then 0 else 1 + IndexOf(s[1..], v)
  }

  /** Elements are pairwise distinct. */
  ghost predicate Distinct<T>(s: seq<T>)
  {
    forall i, j :: 0 <= i < j < |s| ==> s[i] != s[j]
  }

  /** s holds each of 1..n exactly once. */
  ghost predicate IsPermutation(s: seq<int>, n: nat)
  {
    && |s| == n
    && Distinct(s)
    && (forall i :: 0 <= i < |s| ==> 1 <= s[i] <= n)
    && (forall v :: 1 <= v <= n ==> v in s)
  }
}
