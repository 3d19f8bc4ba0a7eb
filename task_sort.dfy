/**
 * The stable sort the list view applies to the filtered tasks
 * (`result.sort(comparator)`; array sorting is stable in JavaScript).
 */
module TaskSort {
  import opened Tasks

  /** Every task may come before every later one. */
  predicate Sorted(opt: SortOption, s: seq<Task>) {
    forall i, j :: 0 <= i < j < |s| ==> Le(opt, s[i], s[j])
  }

  /**
   * `r` orders every class of tasks that compare equal under `opt` exactly
   * as `s` does (and so holds the same tasks as `s`).
   */
  ghost predicate Stable(opt: SortOption, s: seq<Task>, r: seq<Task>) {
    forall x :: Select(r, Tied(opt, x)) == Select(s, Tied(opt, x))
  }

  /** Two neighbours that do not compare equal can trade places without reordering any class. */
  lemma SwapPairKeepsClass(opt: SortOption, y: Task, z: Task, x: Task)
    requires !Le(opt, y, z)
    ensures Select([y, z], Tied(opt, x)) == Select([z, y], Tied(opt, x))
  {
    var p := Tied(opt, x);
    if Holds(p, y) && Holds(p, z) {
      LeTransitive(opt, y, x, z);
      assert false;
    }
    assert [y, z][1..] == [z] && [z, y][1..] == [y];
  }

  lemma SwapKeepsClass(opt: SortOption, a: seq<Task>, y: Task, z: Task, b: seq<Task>, x: Task)
    requires !Le(opt, y, z)
    ensures Select(a + [z, y] + b, Tied(opt, x)) == Select(a + [y, z] + b, Tied(opt, x))
  {
    var p := Tied(opt, x);
    SelectAppend(a + [y, z], b, p);
    SelectAppend(a, [y, z], p);
    SelectAppend(a + [z, y], b, p);
    SelectAppend(a, [z, y], p);
    SwapPairKeepsClass(opt, y, z, x);
  }

  /** Swapping two neighbours where the later one is strictly smaller keeps every class in order. */
  lemma SwapKeepsClasses(opt: SortOption, s: seq<Task>, j: nat)
    requires 0 < j < |s| && !Le(opt, s[j - 1], s[j])
    ensures Stable(opt, s, s[j - 1 := s[j]][j := s[j - 1]])
  {
    var t := s[j - 1 := s[j]][j := s[j - 1]];
    var a, b, y, z := s[..j - 1], s[j + 1..], s[j - 1], s[j];
    assert s == a + [y, z] + b;
    assert t == a + [z, y] + b;
    forall x ensures Select(t, Tied(opt, x)) == Select(s, Tied(opt, x)) {
      SwapKeepsClass(opt, a, y, z, b, x);
    }
  }

  /** Insertion sort by adjacent swaps: sorted, a permutation, and stable. */
  method SortInPlace(a: array<Task>, opt: SortOption)
    modifies a
    ensures Sorted(opt, a[..])
    ensures multiset(a[..]) == multiset(old(a[..]))
    ensures Stable(opt, old(a[..]), a[..])
  {
    for i := 0 to a.Length
      invariant forall p, q :: 0 <= p < q < i ==> Le(opt, a[p], a[q])
      invariant multiset(a[..]) == multiset(old(a[..]))
      invariant Stable(opt, old(a[..]), a[..])
    {
      var j := i;
      while 0 < j && !Le(opt, a[j - 1], a[j])
        invariant 0 <= j <= i
        invariant forall p, q :: 0 <= p < q < j ==> Le(opt, a[p], a[q])
        invariant forall p, q :: j <= p < q <= i ==> Le(opt, a[p], a[q])
        invariant forall p, q :: 0 <= p < j < q <= i ==> Le(opt, a[p], a[q])
        invariant multiset(a[..]) == multiset(old(a[..]))
        invariant Stable(opt, old(a[..]), a[..])
      {
        ghost var before := a[..];
        SwapKeepsClasses(opt, before, j);
        LeTotal(opt, a[j - 1], a[j]);
        a[j - 1], a[j] := a[j], a[j - 1];
        assert a[..] == before[j - 1 := before[j]][j := before[j - 1]];
        j := j - 1;
      }
      if 0 < j {
        forall p | 0 <= p < j ensures Le(opt, a[p], a[j]) {
          if p < j - 1 {
            LeTransitive(opt, a[p], a[j - 1], a[j]);
          }
        }
      }
    }
    assert a[..] == a[..a.Length];
  }

  lemma LeReflexive(opt: SortOption, x: Task)
    ensures Le(opt, x, x)
  {
    LeTotal(opt, x, x);
  }

  /** The first task of a sequence belongs to its own class. */
  lemma OwnClassNonEmpty(opt: SortOption, s: seq<Task>)
    requires s != []
    ensures Select(s, Tied(opt, s[0])) != []
  {
    LeReflexive(opt, s[0]);
  }

  /** A sequence whose every class is empty is itself empty. */
  lemma NoClassesMeansEmpty(opt: SortOption, e: seq<Task>, s: seq<Task>)
    requires e == []
    requires forall x :: Select(e, Tied(opt, x)) == Select(s, Tied(opt, x))
    ensures s == []
  {
    if s != [] {
      OwnClassNonEmpty(opt, s);
      assert false;
    }
  }

  /**
   * Two sorted sequences whose classes of equal-comparing tasks agree are
   * the same sequence: the stable sort of a sequence is unique.
   */
  lemma {:induction false} StableSortUnique(opt: SortOption, r1: seq<Task>, r2: seq<Task>)
    requires Sorted(opt, r1) && Sorted(opt, r2)
    requires forall x :: Select(r1, Tied(opt, x)) == Select(r2, Tied(opt, x))
    ensures r1 == r2
    decreases |r1|
  {
    if r1 == [] {
      NoClassesMeansEmpty(opt, r1, r2);
    } else if r2 == [] {
      NoClassesMeansEmpty(opt, r2, r1);
    } else {
      var x, y := r1[0], r2[0];
      LeReflexive(opt, x);
      LeReflexive(opt, y);
      assert x in Select(r1, Tied(opt, x));
      assert x in r2;
      assert Le(opt, y, x);
      assert y in Select(r2, Tied(opt, y));
      assert y in r1;
      assert Le(opt, x, y);
      assert Select(r1, Tied(opt, x))[0] == x;
      assert Select(r2, Tied(opt, x))[0] == y;
      forall z ensures Select(r1[1..], Tied(opt, z)) == Select(r2[1..], Tied(opt, z)) {
        assert Select(r1, Tied(opt, z)) == Select(r2, Tied(opt, z));
      }
      StableSortUnique(opt, r1[1..], r2[1..]);
      assert r1 == [x] + r1[1..];
      assert r2 == [y] + r2[1..];
    }
  }

  /** Every sort of the same input that is sorted and stable gives one and the same result. */
  lemma SortResultUnique(opt: SortOption, s: seq<Task>, r1: seq<Task>, r2: seq<Task>)
    requires Sorted(opt, r1) && Stable(opt, s, r1)
    requires Sorted(opt, r2) && Stable(opt, s, r2)
    ensures r1 == r2
  {
    StableSortUnique(opt, r1, r2);
  }

  /** Under a comparator that is constantly 0 the sort leaves the order unchanged. */
  lemma UnsortedKeepsOrder(s: seq<Task>, r: seq<Task>)
    requires Sorted(Unsorted, r) && Stable(Unsorted, s, r)
    ensures r == s
  {
    SortResultUnique(Unsorted, s, r, s);
  }
}
