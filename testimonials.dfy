/** The testimonial carousel: an index that wraps around a fixed-length list. */
module Testimonials {

  /** The number of testimonials shown. */
  const TestimonialCount: nat := 4

  /** `(prev + 1) % n`. */
  function Next(i: nat, n: nat): (r: nat)
    requires i < n
    ensures r < n
    ensures r == if i == n - 1 then 0 else i + 1
  {
    (i + 1) % n
  }

  /** `(prev - 1 + n) % n`. */
  function Prev(i: nat, n: nat): (r: nat)
    requires i < n
    ensures r < n
    ensures r == if i == 0 then n - 1 else i - 1
  {
    (i - 1 + n) % n
  }

  /** Going back undoes going forward, and the other way round. */
  lemma PrevUndoesNext(i: nat, n: nat)
    requires i < n
    ensures Prev(Next(i, n), n) == i
    ensures Next(Prev(i, n), n) == i
  {
  }

  /** The index after `k` presses of the next button. */
  function Advance(i: nat, k: nat, n: nat): (r: nat)
    requires i < n
    ensures r < n
  {
    if k == 0 then i else Next(Advance(i, k - 1, n), n)
  }

  /** Before the end of the list is reached, `k` presses move the index `k` places. */
  lemma {:induction false} AdvanceWithoutWrap(i: nat, k: nat, n: nat)
    requires i + k < n
    ensures Advance(i, k, n) == i + k
  {
    if k > 0 {
      AdvanceWithoutWrap(i, k - 1, n);
    }
  }

  /** Pressing next from the last place wraps to the first. */
  lemma WrapsToFirst(i: nat, n: nat)
    requires i < n
    ensures Advance(i, n - i, n) == 0
  {
    AdvanceWithoutWrap(i, n - i - 1, n);
  }

  /** `a + b` presses are `a` presses followed by `b` presses. */
  lemma {:induction false} AdvanceCompose(i: nat, a: nat, b: nat, n: nat)
    requires i < n
    ensures Advance(i, a + b, n) == Advance(Advance(i, a, n), b, n)
  {
    if b > 0 {
      AdvanceCompose(i, a, b - 1, n);
    }
  }

  /** `n` presses of next return to the starting index. */
  lemma FullCycleReturns(i: nat, n: nat)
    requires i < n
    ensures Advance(i, n, n) == i
  {
    AdvanceCompose(i, n - i, i, n);
    WrapsToFirst(i, n);
    if i > 0 {
      AdvanceWithoutWrap(0, i, n);
    }
  }

  /** The carousel state. */
  class Carousel {
    const count: nat
    var activeIndex: nat

    ghost predicate Valid()
      reads this
    {
      activeIndex < count
    }

    constructor ()
      ensures Valid() && count == TestimonialCount && activeIndex == 0
    {
      count := TestimonialCount;
      activeIndex := 0;
    }

    /** `nextTestimonial`. */
    method NextTestimonial()
      requires Valid()
      modifies this`activeIndex
      ensures Valid() && activeIndex == Next(old(activeIndex), count)
    {
      activeIndex := Next(activeIndex, count);
    }

    /** `prevTestimonial`. */
    method PrevTestimonial()
      requires Valid()
      modifies this`activeIndex
      ensures Valid() && activeIndex == Prev(old(activeIndex), count)
    {
      activeIndex := Prev(activeIndex, count);
    }
  }
}
