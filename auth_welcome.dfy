/** The welcome screen's slide carousel: `currentSlide` starts at 0 and the
    two arrow buttons step it forward and back through the three slides,
    wrapping at either end. */
module AuthWelcome {
  import opened JsNumber

  /** `carouselSlides.length` */
  const SlideCount := 3

  /** `(prev + 1) % carouselSlides.length` */
  function NextIndex(i: int): (r: int)
    ensures 0 <= i < SlideCount ==> r == if i == SlideCount - 1 then 0 else i + 1
  {
    JsRem(i + 1, SlideCount)
  }

  /** `(prev - 1 + carouselSlides.length) % carouselSlides.length` */
  function PrevIndex(i: int): (r: int)
    ensures 0 <= i < SlideCount ==> r == if i == 0 then SlideCount - 1 else i - 1
  {
    JsRem(i - 1 + SlideCount, SlideCount)
  }

  /** Both steps keep an index that starts among the slides among the slides. */
  lemma StepsStayInRange(i: int)
    requires 0 <= i < SlideCount
    ensures 0 <= NextIndex(i) < SlideCount
    ensures 0 <= PrevIndex(i) < SlideCount
    ensures NextIndex(SlideCount - 1) == 0 && PrevIndex(0) == SlideCount - 1
  {
  }

  /** Back undoes forward and forward undoes back. */
  lemma StepsUndoEachOther(i: int)
    requires 0 <= i < SlideCount
    ensures PrevIndex(NextIndex(i)) == i
    ensures NextIndex(PrevIndex(i)) == i
  {
  }

  /** The slide after pressing forward `k` times. */
  function Forward(i: int, k: nat): int {
    if k == 0 then i else NextIndex(Forward(i, k - 1))
  }

  /** Pressing forward `k` times moves `k` slides round the ring. */
  lemma {:induction false} ForwardIsRotation(i: int, k: nat)
    requires 0 <= i < SlideCount
    ensures Forward(i, k) == (i + k) % SlideCount
  {
    if k > 0 {
      ForwardIsRotation(i, k - 1);
    }
  }

  /** A full turn of the slides comes back to the starting slide. */
  lemma FullTurn(i: int)
    requires 0 <= i < SlideCount
    ensures Forward(i, SlideCount) == i
  {
    ForwardIsRotation(i, SlideCount);
  }

  /** The carousel's state. */
  class Carousel {
    var currentSlide: int

    predicate Valid()
      reads this
    {
      0 <= currentSlide < SlideCount
    }

    constructor ()
      ensures Valid() && currentSlide == 0
    {
      currentSlide := 0;
    }

    /** `nextSlide` */
    method NextSlide()
      requires Valid()
      modifies this
      ensures Valid()
      ensures currentSlide == NextIndex(old(currentSlide))
    {
      currentSlide := JsRem(currentSlide + 1, SlideCount);
    }

    /** `prevSlide` */
    method PrevSlide()
      requires Valid()
      modifies this
      ensures Valid()
      ensures currentSlide == PrevIndex(old(currentSlide))
    {
      currentSlide := JsRem(currentSlide - 1 + SlideCount, SlideCount);
    }
  }
}
