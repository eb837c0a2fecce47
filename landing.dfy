/**
 * The carousel of the landing page: four slides, a current index moved forwards and backwards
 * modulo the number of slides, and a play/pause switch that decides whether the four-second
 * timer advances the index.
 */
module Landing {

  /** `slides.length`. */
  const SlideCount: nat := 4

  /** `(prev + 1) % slides.length`; the operands are never negative, so JavaScript's `%` agrees. */
  function NextIndex(i: int): (j: int)
    requires 0 <= i < SlideCount
    ensures 0 <= j < SlideCount
  {
    (i + 1) % SlideCount
  }

  /** `(prev - 1 + slides.length) % slides.length`. */
  function PrevIndex(i: int): (j: int)
    requires 0 <= i < SlideCount
    ensures 0 <= j < SlideCount
  {
    (i - 1 + SlideCount) % SlideCount
  }

  /** Going back undoes going forward, and the other way round. */
  lemma PrevUndoesNext(i: int)
    requires 0 <= i < SlideCount
    ensures PrevIndex(NextIndex(i)) == i && NextIndex(PrevIndex(i)) == i
  {
  }

  /** Forward steps wrap around at the last slide, backward steps at the first. */
  lemma Wraparound()
    ensures NextIndex(SlideCount - 1) == 0 && PrevIndex(0) == SlideCount - 1
  {
  }

  /** The index after `k` forward steps. */
  function NextTimes(i: int, k: nat): (j: int)
    requires 0 <= i < SlideCount
    ensures 0 <= j < SlideCount
  {
    if k == 0 then i else NextIndex(NextTimes(i, k - 1))
  }

  lemma {:induction false} NextTimesIsModular(i: int, k: nat)
    requires 0 <= i < SlideCount
    ensures NextTimes(i, k) == (i + k) % SlideCount
  {
    if k > 0 {
      NextTimesIsModular(i, k - 1);
      StepMod(i + k - 1);
    }
  }

  /** One more step modulo the slide count. */
  lemma StepMod(n: nat)
    ensures (n % SlideCount + 1) % SlideCount == (n + 1) % SlideCount
  {
    var q, r := n / SlideCount, n % SlideCount;
    assert n == SlideCount * q + r;
    if r < SlideCount - 1 {
      assert n + 1 == SlideCount * q + (r + 1);
    } else {
      assert n + 1 == SlideCount * (q + 1) + 0;
    }
  }

  /** As many forward steps as there are slides come back to the starting slide. */
  lemma FullCycle(i: int)
    requires 0 <= i < SlideCount
    ensures NextTimes(i, SlideCount) == i
  {
    NextTimesIsModular(i, SlideCount);
  }

  class Carousel {
    var currentSlide: int
    var isPlaying: bool

    ghost predicate Valid()
      reads this
    {
      0 <= currentSlide < SlideCount
    }

    constructor ()
      ensures Valid() && currentSlide == 0 && isPlaying
    {
      currentSlide, isPlaying := 0, true;
    }

    method NextSlide()
      requires Valid()
      modifies this
      ensures Valid() && currentSlide == NextIndex(old(currentSlide)) && isPlaying == old(isPlaying)
    {
      currentSlide := (currentSlide + 1) % SlideCount;
    }

    method PrevSlide()
      requires Valid()
      modifies this
      ensures Valid() && currentSlide == PrevIndex(old(currentSlide)) && isPlaying == old(isPlaying)
    {
      currentSlide := (currentSlide - 1 + SlideCount) % SlideCount;
    }

    /** The play/pause button. */
    method TogglePlay()
      modifies this
      ensures isPlaying == !old(isPlaying) && currentSlide == old(currentSlide)
    {
      isPlaying := !isPlaying;
    }

    /** One firing of the interval timer, which is only installed while playing. */
    method Tick()
      requires Valid()
      modifies this
      ensures Valid() && isPlaying == old(isPlaying)
      ensures currentSlide == if old(isPlaying) then NextIndex(old(currentSlide)) else old(currentSlide)
    {
      if isPlaying {
        NextSlide();
      }
    }
  }
}
