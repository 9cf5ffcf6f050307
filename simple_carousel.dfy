/**
 * The slide index of SimpleCarousel (components/ui/simple-carousel.tsx): the
 * `currentIndex` state, moved by the `next` and `prev` callbacks and set directly
 * by a dot button. `totalSlides` is the number of children and `loop` the option
 * (true when not given).
 */
module SimpleCarousel {
  import opened ClockText

  /** The `loop` option with its default applied (line 35). */
  function LoopOption(opt: Option<bool>): (loop: bool)
    ensures opt.None? ==> loop
    ensures opt.Some? ==> loop == opt.value
  {
    match opt
    case None => true
    case Some(b) => b
  }

  /** The index `next` moves to (lines 37-45). */
  function NextIndex(index: int, totalSlides: nat, loop: bool): (r: int)
    ensures index == totalSlides - 1 && loop ==> r == 0
    ensures index == totalSlides - 1 && !loop ==> r == index
    ensures index != totalSlides - 1 ==> r == index + 1
  {
    if index == totalSlides - 1 then (if loop then 0 else index) else index + 1
  }

  /** The index `prev` moves to (lines 47-55). */
  function PrevIndex(index: int, totalSlides: nat, loop: bool): (r: int)
    ensures index == 0 && loop ==> r == totalSlides - 1
    ensures index == 0 && !loop ==> r == index
    ensures index != 0 ==> r == index - 1
  {
    if index == 0 then (if loop then totalSlides - 1 else index) else index - 1
  }

  predicate InRange(index: int, totalSlides: nat)
  {
    0 <= index < totalSlides
  }

  /** The carousel's state: the index, with the slide count and the option fixed
      for the life of the component. */
  class Carousel {
    var currentIndex: int
    const totalSlides: nat
    const loop: bool

    /** Mounting starts at slide 0 (line 32). */
    constructor(totalSlides: nat, opt: Option<bool>)
      ensures currentIndex == 0
      ensures this.totalSlides == totalSlides && loop == LoopOption(opt)
    {
      currentIndex := 0;
      this.totalSlides := totalSlides;
      loop := LoopOption(opt);
    }

    method Next()
      modifies this
      ensures currentIndex == NextIndex(old(currentIndex), totalSlides, loop)
    {
      if currentIndex == totalSlides - 1 {
        if loop {
          currentIndex := 0;
        }
      } else {
        currentIndex := currentIndex + 1;
      }
    }

    method Prev()
      modifies this
      ensures currentIndex == PrevIndex(old(currentIndex), totalSlides, loop)
    {
      if currentIndex == 0 {
        if loop {
          currentIndex := totalSlides - 1;
        }
      } else {
        currentIndex := currentIndex - 1;
      }
    }

    /** A dot button sets the index to its own position (lines 131-137). */
    method GoTo(index: nat)
      requires index < totalSlides
      modifies this
      ensures currentIndex == index
      ensures InRange(currentIndex, totalSlides)
    {
      currentIndex := index;
    }
  }

  /** With at least one slide, next and prev keep the index among the slides. */
  lemma StepsStayInRange(index: int, totalSlides: nat, loop: bool)
    requires InRange(index, totalSlides)
    ensures InRange(NextIndex(index, totalSlides, loop), totalSlides)
    ensures InRange(PrevIndex(index, totalSlides, loop), totalSlides)
  {
  }

  /** With no slides, `next` leaves the range: 0 is not the last index -1. */
  lemma EmptyCarouselNextLeavesRange(loop: bool)
    ensures NextIndex(0, 0, loop) == 1
    ensures !InRange(NextIndex(0, 0, loop), 0)
  {
  }

  /** With looping, prev undoes next and next undoes prev. */
  lemma LoopPrevUndoesNext(index: int, totalSlides: nat)
    requires InRange(index, totalSlides)
    ensures PrevIndex(NextIndex(index, totalSlides, true), totalSlides, true) == index
    ensures NextIndex(PrevIndex(index, totalSlides, true), totalSlides, true) == index
  {
  }

  /** `next` applied n times. */
  function NextTimes(index: int, totalSlides: nat, loop: bool, n: nat): (r: int)
  {
    if n == 0 then index else NextIndex(NextTimes(index, totalSlides, loop, n - 1), totalSlides, loop)
  }

  /** n + k presses are n presses followed by k presses. */
  lemma {:induction false} NextTimesAdd(index: int, totalSlides: nat, loop: bool, n: nat, k: nat)
    ensures NextTimes(index, totalSlides, loop, n + k)
      == NextTimes(NextTimes(index, totalSlides, loop, n), totalSlides, loop, k)
  {
    if k > 0 {
      NextTimesAdd(index, totalSlides, loop, n, k - 1);
    }
  }

  /** Below the last slide, each press adds one. */
  lemma {:induction false} NextTimesClimbs(index: int, totalSlides: nat, loop: bool, n: nat)
    requires 0 <= index && index + n <= totalSlides - 1
    ensures NextTimes(index, totalSlides, loop, n) == index + n
  {
    if n > 0 {
      NextTimesClimbs(index, totalSlides, loop, n - 1);
    }
  }

  /** Under looping, totalSlides presses of next return to the starting slide. */
  lemma FullCycleReturns(index: int, totalSlides: nat)
    requires InRange(index, totalSlides)
    ensures NextTimes(index, totalSlides, true, totalSlides) == index
  {
    var toLast := totalSlides - 1 - index;
    NextTimesClimbs(index, totalSlides, true, toLast);
    NextTimesAdd(index, totalSlides, true, toLast, 1);
    assert NextTimes(index, totalSlides, true, toLast + 1) == 0;
    NextTimesAdd(index, totalSlides, true, toLast + 1, index);
    NextTimesClimbs(0, totalSlides, true, index);
  }

  /** Without looping the ends hold still; away from the ends the steps are one. */
  lemma NoLoopEnds(index: int, totalSlides: nat)
    requires InRange(index, totalSlides)
    ensures index == totalSlides - 1 ==> NextIndex(index, totalSlides, false) == index
    ensures index == 0 ==> PrevIndex(index, totalSlides, false) == 0
    ensures index < totalSlides - 1 ==> NextIndex(index, totalSlides, false) == index + 1
    ensures 0 < index ==> PrevIndex(index, totalSlides, false) == index - 1
  {
  }
}
