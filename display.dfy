/** The record list's ordering: newest first, by descending `id`. */
module Display {
  import opened Attendance

  /** `s` is ordered by `id`, non-increasing. */
  predicate DescendingById(s: seq<Record>) {
    forall i, j :: 0 <= i < j < |s| ==> s[i].id >= s[j].id
  }

  /** Exchanges two adjacent records in place. */
  method SwapAdjacent(a: array<Record>, j: nat)
    requires 0 < j < a.Length
    modifies a
    ensures a[..] == old(a[..])[j - 1 := old(a[j])][j := old(a[j - 1])]
    ensures multiset(a[..]) == old(multiset(a[..]))
  {
    a[j - 1], a[j] := a[j], a[j - 1];
  }

  /** Sorts the array of shown records in place with the comparator
      "later id first": the result is a rearrangement of the input, ordered
      by descending `id`. */
  method SortForDisplay(a: array<Record>)
    modifies a
    ensures DescendingById(a[..])
    ensures multiset(a[..]) == old(multiset(a[..]))
  {
    var i := 0;
    while i < a.Length
      invariant 0 <= i <= a.Length
      invariant forall k, l :: 0 <= k < l < i ==> a[k].id >= a[l].id
      invariant multiset(a[..]) == old(multiset(a[..]))
    {
      var j := i;
      while j > 0 && a[j - 1].id < a[j].id
        invariant 0 <= j <= i
        invariant forall k, l :: 0 <= k < l <= i && k != j && l != j ==> a[k].id >= a[l].id
        invariant forall l :: j < l <= i ==> a[j].id > a[l].id
        invariant multiset(a[..]) == old(multiset(a[..]))
      {
        SwapAdjacent(a, j);
        j := j - 1;
      }
      i := i + 1;
    }
  }
}
