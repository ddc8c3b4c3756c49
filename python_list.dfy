/**
 * The few Python list built-ins that the sample builder relies on, with
 * Python's own semantics: indexing that accepts negative positions,
 * slicing that clamps (and wraps negative bounds) instead of failing,
 * `min` of a non-empty list and `list.index` (first occurrence).
 */
module PyList {

  /** A position `i` is a valid Python index into a list of length `n`
      (negative positions count from the end). */
  predicate IndexInRange(i: int, n: nat) {
    -(n as int) <= i < n
  }

  /** The non-negative position that a valid Python index denotes. */
  function Wrap(i: int, n: nat): (p: nat)
    requires IndexInRange(i, n)
    ensures p < n
    ensures p == i || p == i + n
  {
    if i < 0 then i + n else i
  }

  /** How Python normalises one bound of a slice `s[lo:hi]` of a list of
      length `n`: negative bounds count from the end, and anything still
      outside `[0, n]` is clamped. */
  function SliceBound(i: int, n: nat): (b: nat)
    ensures b <= n
  {
    if i < 0 then (if i + n < 0 then 0 else i + n)
    else if i > n then n
    else i
  }

  /** Python's `s[lo:hi]` (step 1). It never fails: a slice whose
      normalised bounds are crossed is empty. */
  function Slice<X>(s: seq<X>, lo: int, hi: int): (r: seq<X>)
    ensures |r| <= |s|
    ensures 0 <= lo <= hi <= |s| ==> r == s[lo..hi]
  {
    var a, b := SliceBound(lo, |s|), SliceBound(hi, |s|);
    if a < b then s[a..b] else []
  }

  /** A slice of fixed length `len > 0` starting at `lo` has exactly `len`
      elements in two situations only: the window lies inside the list,
      or both of its bounds are negative and it wraps around to the end
      of the list. */
  lemma SliceFullLengthIff<X>(s: seq<X>, lo: int, len: int)
    requires len > 0
    ensures |Slice(s, lo, lo + len)| == len <==>
              (0 <= lo && lo + len <= |s|) || (-|s| <= lo && lo + len < 0)
  {
  }

  /** Python's `min` of a list; calling it on an empty list raises, which
      callers model before calling. */
  function Min(s: seq<int>): (m: int)
    requires |s| > 0
    ensures m in s
    ensures forall x :: x in s ==> m <= x
  {
    if |s| == 1 then s[0]
    else
      var rest := Min(s[1..]);
      assert forall x :: x in s[1..] ==> rest <= x;
      assert forall x :: x in s ==> x == s[0] || x in s[1..];
      if s[0] <= rest then s[0] else rest
  }

  /** Python's `s.index(x)`: the position of the FIRST occurrence of `x`. */
  function IndexOf<X(==)>(s: seq<X>, x: X): (k: nat)
    requires x in s
    ensures k < |s| && s[k] == x
    ensures forall j :: 0 <= j < k ==> s[j] != x
  {
    if s[0] == x then 0
    else
      assert x in s[1..];
      1 + IndexOf(s[1..], x)
  }

  /** `IndexOf` is the unique first occurrence. */
  lemma IndexOfIsFirst<X>(s: seq<X>, x: X, j: nat)
    requires j < |s| && s[j] == x
    requires forall i :: 0 <= i < j ==> s[i] != x
    ensures x in s && IndexOf(s, x) == j
  {
  }

  /** The list with position `j` removed, element by element. */
  lemma RemoveAt<X>(s: seq<X>, j: nat)
    requires j < |s|
    ensures |s[..j] + s[j + 1..]| == |s| - 1
    ensures forall i :: 0 <= i < |s| - 1 ==>
              (s[..j] + s[j + 1..])[i] == if i < j then s[i] else s[i + 1]
  {
  }

  /** Removing an element that differs from `x` moves the first occurrence
      of `x` down by one exactly when it lay after the removed element. */
  lemma IndexOfAfterRemove<X>(s: seq<X>, j: nat, x: X)
    requires j < |s| && s[j] != x
    ensures x in s <==> x in s[..j] + s[j + 1..]
    ensures x in s ==>
      IndexOf(s[..j] + s[j + 1..], x) ==
        (if IndexOf(s, x) < j then IndexOf(s, x) else IndexOf(s, x) - 1)
  {
    var t := s[..j] + s[j + 1..];
    RemoveAt(s, j);
    if x in s {
      var k := IndexOf(s, x);
      var k' := if k < j then k else k - 1;
      assert t[k'] == x;
      forall i | 0 <= i < k'
        ensures t[i] != x
      {
        assert t[i] == s[if i < j then i else i + 1];
      }
      IndexOfIsFirst(t, x, k');
    } else {
      forall i | 0 <= i < |t|
        ensures t[i] != x
      {
        assert t[i] == s[if i < j then i else i + 1];
      }
    }
  }
}
