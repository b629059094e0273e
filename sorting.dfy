/** Go's `sort.Slice` and `sort.Strings`: an in-place sort of a slice under a
    caller-supplied "less" function. Go does not promise stability, so the
    contract is only "ordered and a permutation". */
module Sorting {

  /** What `sort.Slice` needs of its less function: it is asymmetric and
      "not less" is transitive (a strict weak order). */
  ghost predicate StrictWeakOrder<T(!new)>(less: (T, T) -> bool)
  {
    && (forall x, y :: less(x, y) ==> !less(y, x))
    && (forall x, y, z :: !less(y, x) && !less(z, y) ==> !less(z, x))
  }

  /** No element is less than an element before it. */
  ghost predicate SortedBy<T>(s: seq<T>, less: (T, T) -> bool)
  {
    forall i, j :: 0 <= i < j < |s| ==> !less(s[j], s[i])
  }

  /** Every neighbouring pair is in order. */
  ghost predicate NeighboursInOrder<T>(s: seq<T>, less: (T, T) -> bool)
  {
    forall k :: 0 < k < |s| ==> !less(s[k], s[k - 1])
  }

  /** For a strict weak order, neighbours in order means the whole
      sequence is in order. */
  lemma {:induction false} SortedFromNeighbours<T(!new)>(s: seq<T>, less: (T, T) -> bool)
    requires StrictWeakOrder(less)
    requires NeighboursInOrder(s, less)
    ensures SortedBy(s, less)
  {
    forall i, j | 0 <= i < j < |s|
      ensures !less(s[j], s[i])
    {
      InOrderAcross(s, less, i, j);
    }
  }

  lemma {:induction false} InOrderAcross<T(!new)>(s: seq<T>, less: (T, T) -> bool, i: int, j: int)
    requires StrictWeakOrder(less)
    requires NeighboursInOrder(s, less)
    requires 0 <= i < j < |s|
    ensures !less(s[j], s[i])
    decreases j - i
  {
    if i + 1 < j {
      InOrderAcross(s, less, i, j - 1);
      assert !less(s[j], s[j - 1]);
    }
  }

  /** Exchanges `a[j - 1]` and `a[j]`. */
  method SwapNeighbours<T>(a: array<T>, j: int)
    requires 0 < j < a.Length
    modifies a
    ensures a[j - 1] == old(a[j]) && a[j] == old(a[j - 1])
    ensures forall k :: 0 <= k < a.Length && k != j - 1 && k != j ==> a[k] == old(a[k])
    ensures multiset(a[..]) == multiset(old(a[..]))
  {
    ghost var before := a[..];
    a[j - 1], a[j] := a[j], a[j - 1];
    assert a[..] == before[j - 1 := before[j]][j := before[j - 1]];
  }

  /** Insertion sort in place: afterwards `a` is ordered by `less` and holds
      the same elements as before. */
  method Sort<T(!new)>(a: array<T>, less: (T, T) -> bool)
    requires StrictWeakOrder(less)
    modifies a
    ensures SortedBy(a[..], less)
    ensures multiset(a[..]) == multiset(old(a[..]))
  {
    var i := 1;
    while i < a.Length
      invariant a.Length == 0 || 1 <= i <= a.Length
      invariant forall k :: 0 < k < i && k < a.Length ==> !less(a[k], a[k - 1])
      invariant multiset(a[..]) == multiset(old(a[..]))
    {
      var j := i;
      while 0 < j && less(a[j], a[j - 1])
        invariant 0 <= j <= i
        invariant forall k :: 0 < k <= i && k != j ==> !less(a[k], a[k - 1])
        invariant 0 < j < i ==> !less(a[j + 1], a[j - 1])
        invariant multiset(a[..]) == multiset(old(a[..]))
      {
        SwapNeighbours(a, j);
        j := j - 1;
      }
      i := i + 1;
    }
    SortedFromNeighbours(a[..], less);
  }
}
