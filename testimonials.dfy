/** The testimonial carousel: an index into the four testimonials, moved by the arrows and the dots. */
module Testimonials {

  const TestimonialCount := 4

  /** `(prev + 1) % length`. */
  function NextIndex(i: int, n: int): (r: int)
    requires n > 0 && 0 <= i < n
    ensures 0 <= r < n
    ensures r == if i == n - 1 then 0 else i + 1
  {
    (i + 1) % n
  }

  /** `(prev - 1 + length) % length`; the dividend is never negative, so JavaScript's `%` agrees. */
  function PrevIndex(i: int, n: int): (r: int)
    requires n > 0 && 0 <= i < n
    ensures 0 <= r < n
    ensures r == if i == 0 then n - 1 else i - 1
  {
    (i - 1 + n) % n
  }

  /** Back after forward, and forward after back, return to the same testimonial. */
  lemma NextPrevInverse(i: int, n: int)
    requires n > 0 && 0 <= i < n
    ensures PrevIndex(NextIndex(i, n), n) == i
    ensures NextIndex(PrevIndex(i, n), n) == i
  {
  }

  /** The index after `k` presses of the forward arrow. */
  function Forward(i: int, n: int, k: nat): (r: int)
    requires n > 0 && 0 <= i < n
    ensures 0 <= r < n
    decreases k
  {
    if k == 0 then i else Forward(NextIndex(i, n), n, k - 1)
  }

  /** Below the last testimonial, `k` forward presses advance the index by `k`. */
  lemma {:induction false} ForwardBelowEnd(i: int, n: int, k: nat)
    requires n > 0 && 0 <= i && i + k < n
    ensures Forward(i, n, k) == i + k
    decreases k
  {
    if k > 0 {
      ForwardBelowEnd(i + 1, n, k - 1);
    }
  }

  /** Presses add up: `a` presses and then `b` more are `a + b` presses. */
  lemma {:induction false} ForwardCompose(i: int, n: int, a: nat, b: nat)
    requires n > 0 && 0 <= i < n
    ensures Forward(i, n, a + b) == Forward(Forward(i, n, a), n, b)
    decreases a
  {
    if a > 0 {
      ForwardCompose(NextIndex(i, n), n, a - 1, b);
    }
  }

  /** Pressing forward once per testimonial comes back to the starting one. */
  lemma ForwardFullCycle(i: int, n: int)
    requires n > 0 && 0 <= i < n
    ensures Forward(i, n, n) == i
  {
    ForwardBelowEnd(i, n, n - 1 - i);
    ForwardStep(i, n, n - 1 - i);
    assert Forward(i, n, n - i) == 0;
    ForwardCompose(i, n, n - i, i);
    ForwardBelowEnd(0, n, i);
  }

  class Carousel {
    var currentIndex: int

    ghost predicate Valid()
      reads this
    {
      0 <= currentIndex < TestimonialCount
    }

    /** The carousel opens on the first testimonial. */
    constructor()
      ensures Valid() && currentIndex == 0
    {
      currentIndex := 0;
    }

    /** The dot of `index` is highlighted while its testimonial is shown. */
    predicate DotActive(index: int)
      reads this
    {
      index == currentIndex
    }

    method NextTestimonial()
      requires Valid()
      modifies this
      ensures Valid() && currentIndex == NextIndex(old(currentIndex), TestimonialCount)
    {
      currentIndex := (currentIndex + 1) % TestimonialCount;
    }

    method PrevTestimonial()
      requires Valid()
      modifies this
      ensures Valid() && currentIndex == PrevIndex(old(currentIndex), TestimonialCount)
    {
      currentIndex := (currentIndex - 1 + TestimonialCount) % TestimonialCount;
    }

    /** A click on one of the dots shows that testimonial. */
    method ClickDot(index: int)
      requires 0 <= index < TestimonialCount
      modifies this
      ensures Valid() && currentIndex == index
    {
      currentIndex := index;
    }

    /** Pressing the forward arrow once per testimonial brings the carousel back where it was. */
    method CycleForward()
      requires Valid()
      modifies this
      ensures Valid() && currentIndex == old(currentIndex)
    {
      var start := currentIndex;
      var k := 0;
      while k < TestimonialCount
        invariant 0 <= k <= TestimonialCount
        invariant Valid() && currentIndex == Forward(start, TestimonialCount, k)
      {
        ForwardStep(start, TestimonialCount, k);
        NextTestimonial();
        k := k + 1;
      }
      ForwardFullCycle(start, TestimonialCount);
    }
  }

  /** One more press after `k` presses. */
  lemma {:induction false} ForwardStep(i: int, n: int, k: nat)
    requires n > 0 && 0 <= i < n
    ensures Forward(i, n, k + 1) == NextIndex(Forward(i, n, k), n)
    decreases k
  {
    if k > 0 {
      ForwardStep(NextIndex(i, n), n, k - 1);
    }
  }

  /** Exactly one dot is highlighted. */
  lemma OneDotActive(c: Carousel)
    requires c.Valid()
    ensures c.DotActive(c.currentIndex)
    ensures forall k :: 0 <= k < TestimonialCount && c.DotActive(k) ==> k == c.currentIndex
  {
  }
}
