/** Sorting distinct strings: the result is strictly increasing, hence unique. */
module StringSort {
  import opened Common
  import opened Sorting

  predicate StrictlyIncreasing(ids: seq<string>) {
    forall i, j :: 0 <= i < j < |ids| ==> Less(ids[i], ids[j])
  }

  lemma LessIsStrictWeak()
    ensures StrictWeak(Less)
  {
    forall a: string ensures !Less(a, a) { LessIrreflexive(a); }
    forall a: string, b: string, c: string
      ensures Less(a, b) && Less(b, c) ==> Less(a, c)
      ensures !Less(a, b) && !Less(b, c) ==> !Less(a, c)
    {
      LessIsWeak(a, b, c);
    }
  }

  lemma SortedDistinct(ids: seq<string>)
    requires Distinct(ids)
    ensures StrictlyIncreasing(StableSort(ids, Less))
    ensures forall s :: s in StableSort(ids, Less) <==> s in ids
  {
    LessIsStrictWeak();
    SortIsOrderedPermutation(ids, Less);
    var r := StableSort(ids, Less);
    assert forall s :: s in r <==> s in multiset(r);
    assert forall s :: s in ids <==> s in multiset(ids);
    RearrangedIsDistinct(ids, r);
    forall i, j | 0 <= i < j < |r| ensures Less(r[i], r[j]) {
      LessTotal(r[i], r[j]);
    }
  }
}
