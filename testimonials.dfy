/** The student-testimonial carousel (src/app/Components/StudentTestimonials.tsx):
    the testimonials are shown three at a time; a slide counter advances
    with the next button and every five seconds, goes back with the previous
    button, and wraps around at both ends. */
module Testimonials {
  import opened Common

  datatype Testimonial = Testimonial(
    name: string,
    university: string,
    country: string,
    course: string,
    rating: nat)

  /** The constant list the section renders: six students, each rating five stars. */
  function StudentTestimonials(): (ts: seq<Testimonial>)
    ensures |ts| == 6
    ensures forall i :: 0 <= i < |ts| ==> ts[i].rating == 5
  {
    [ Testimonial("Priya Sharma", "University of Toronto", "Canada", "Masters in Computer Science", 5),
      Testimonial("Rahul Patel", "Technical University of Munich", "Germany", "Masters in Mechanical Engineering", 5),
      Testimonial("Ananya Singh", "University of Melbourne", "Australia", "MBA", 5),
      Testimonial("Arjun Reddy", "University of Texas at Dallas", "USA", "Masters in Data Science", 5),
      Testimonial("Neha Gupta", "University of British Columbia", "Canada", "Masters in Environmental Science", 5),
      Testimonial("Vikram Malhotra", "University of Sydney", "Australia", "Masters in Architecture", 5) ]
  }

  const SlidesToShow: nat := 3

  /** The number of slides: the fewest slides of three that hold `n` items. */
  function TotalSlides(n: nat): (t: nat)
    ensures t * SlidesToShow >= n
    ensures t > 0 ==> (t - 1) * SlidesToShow < n
    ensures t == 0 <==> n == 0
  {
    (n + SlidesToShow - 1) / SlidesToShow
  }

  /** The constant list of six testimonials fills exactly two slides. */
  lemma ConstantListHasTwoSlides()
    ensures TotalSlides(|StudentTestimonials()|) == 2
  {
  }

  /** Below twice the divisor, the remainder is one subtraction away. */
  lemma ModBelowTwice(x: int, n: int)
    requires 0 < n && 0 <= x < 2 * n
    ensures x % n == if x < n then x else x - n
  {
    if x < n {
      assert x / n == 0;
    } else {
      assert x / n == 1;
    }
  }

  /** The slide after `s`, wrapping from the last to the first: the next
      button and the five-second timer. */
  function NextSlide(s: nat, total: nat): (r: nat)
    requires s < total
    ensures r < total
    ensures r == 0 <==> s == total - 1
    ensures r != 0 ==> r == s + 1
  {
    ModBelowTwice(s + 1, total);
    (s + 1) % total
  }

  /** The slide before `s`, wrapping from the first to the last: the previous button. */
  function PrevSlide(s: nat, total: nat): (r: nat)
    requires s < total
    ensures r < total
    ensures s == 0 ==> r == total - 1
    ensures s != 0 ==> r == s - 1
  {
    ModBelowTwice(s - 1 + total, total);
    (s - 1 + total) % total
  }

  /** Previous undoes next, and next undoes previous. */
  lemma PrevNextInverse(s: nat, total: nat)
    requires s < total
    ensures PrevSlide(NextSlide(s, total), total) == s
    ensures NextSlide(PrevSlide(s, total), total) == s
  {
  }

  /** The slide reached from `s` after `k` steps of next. */
  function AdvanceBy(s: nat, total: nat, k: nat): (r: nat)
    requires s < total
    ensures r < total
  {
    if k == 0 then s else NextSlide(AdvanceBy(s, total, k - 1), total)
  }

  /** Before the wrap-around, each step of next moves one slide on. */
  lemma {:induction false} AdvanceWithoutWrap(s: nat, total: nat, k: nat)
    requires s + k < total
    ensures AdvanceBy(s, total, k) == s + k
  {
    if k > 0 {
      AdvanceWithoutWrap(s, total, k - 1);
    }
  }

  /** Advancing by `a + b` steps is advancing by `a`, then by `b`. */
  lemma {:induction false} AdvanceCompose(s: nat, total: nat, a: nat, b: nat)
    requires s < total
    ensures AdvanceBy(s, total, a + b) == AdvanceBy(AdvanceBy(s, total, a), total, b)
  {
    if b > 0 {
      AdvanceCompose(s, total, a, b - 1);
    }
  }

  /** Pressing next once per slide (or waiting that many timer ticks) comes
      back to the starting slide. */
  lemma FullCycleReturns(s: nat, total: nat)
    requires s < total
    ensures AdvanceBy(s, total, total) == s
  {
    AdvanceWithoutWrap(s, total, total - s - 1);
    assert AdvanceBy(s, total, total - s) == 0;
    AdvanceCompose(s, total, total - s, s);
    if s > 0 {
      AdvanceWithoutWrap(0, total, s);
    }
  }

  /** The cards on slide `s`: the three starting at card `3s`, fewer at the end. */
  function Visible<T>(items: seq<T>, s: nat): (r: seq<T>)
    ensures |r| <= SlidesToShow
    ensures s * SlidesToShow <= |items| ==> |r| == Min(SlidesToShow, |items| - s * SlidesToShow)
    ensures s * SlidesToShow >= |items| ==> r == []
    ensures forall j :: 0 <= j < |r| ==> r[j] == items[s * SlidesToShow + j]
  {
    Slice(items, s * SlidesToShow, s * SlidesToShow + SlidesToShow)
  }

  /** Every slide in range shows at least one card. */
  lemma SlideInRangeIsNonEmpty<T>(items: seq<T>, s: nat)
    requires s < TotalSlides(|items|)
    ensures 1 <= |Visible(items, s)| <= SlidesToShow
  {
  }

  /** The cards of slides `k`, `k + 1`, ... laid end to end. */
  function SlidesFrom<T>(items: seq<T>, k: nat): seq<T>
    decreases |items| - k * SlidesToShow
  {
    if k * SlidesToShow >= |items| then [] else Visible(items, k) + SlidesFrom(items, k + 1)
  }

  lemma {:induction false} SlidesFromIsSuffix<T>(items: seq<T>, k: nat)
    requires k * SlidesToShow <= |items|
    ensures SlidesFrom(items, k) == items[k * SlidesToShow..]
    decreases |items| - k * SlidesToShow
  {
    if k * SlidesToShow < |items| {
      var v := Visible(items, k);
      if (k + 1) * SlidesToShow <= |items| {
        SlidesFromIsSuffix(items, k + 1);
        assert v == items[k * SlidesToShow..(k + 1) * SlidesToShow];
      } else {
        assert v == items[k * SlidesToShow..];
      }
    }
  }

  /** The slides partition the testimonials: laying the cards of every slide
      end to end gives back the whole list, in order, with nothing repeated. */
  lemma SlidesPartitionList<T>(items: seq<T>)
    ensures SlidesFrom(items, 0) == items
  {
    SlidesFromIsSuffix(items, 0);
  }

  /** Item `i` appears on slide `i / 3` at position `i % 3`, and on no other
      slide: a slide `s` shows it only when `s == i / 3`. */
  lemma ItemOnExactlyOneSlide<T>(items: seq<T>, i: nat)
    requires i < |items|
    ensures i / SlidesToShow < TotalSlides(|items|)
    ensures i % SlidesToShow < |Visible(items, i / SlidesToShow)|
    ensures Visible(items, i / SlidesToShow)[i % SlidesToShow] == items[i]
  {
  }

  /** Position `j` of slide `s` holds item `s * 3 + j`, so a slide other than
      `i / 3` never shows item `i`. */
  lemma SlideOfItemIsUnique<T>(items: seq<T>, i: nat, s: nat, j: nat)
    requires j < |Visible(items, s)| && s * SlidesToShow + j == i
    ensures s == i / SlidesToShow && j == i % SlidesToShow
    ensures Visible(items, s)[j] == items[i]
  {
  }

  /** The carousel's state: the list it shows and the current slide. */
  class Carousel {
    const items: seq<Testimonial>
    const totalSlides: nat
    var currentSlide: nat

    ghost predicate Valid()
      reads this
    {
      totalSlides == TotalSlides(|items|) && currentSlide < totalSlides
    }

    /** The carousel starts on the first slide; a list with no testimonial
        would have no slide at all. */
    constructor (testimonials: seq<Testimonial>)
      requires |testimonials| > 0
      ensures Valid()
      ensures items == testimonials && currentSlide == 0
    {
      items := testimonials;
      totalSlides := TotalSlides(|testimonials|);
      currentSlide := 0;
    }

    /** The cards on the current slide: never empty, at most three. */
    function Shown(): (r: seq<Testimonial>)
      requires Valid()
      reads this
      ensures 1 <= |r| <= SlidesToShow
      ensures r == Visible(items, currentSlide)
    {
      SlideInRangeIsNonEmpty(items, currentSlide);
      Visible(items, currentSlide)
    }

    /** The next button. */
    method Next()
      requires Valid()
      modifies this
      ensures Valid()
      ensures currentSlide == NextSlide(old(currentSlide), totalSlides)
    {
      currentSlide := (currentSlide + 1) % totalSlides;
    }

    /** The previous button. */
    method Prev()
      requires Valid()
      modifies this
      ensures Valid()
      ensures currentSlide == PrevSlide(old(currentSlide), totalSlides)
    {
      currentSlide := (currentSlide - 1 + totalSlides) % totalSlides;
    }

    /** The five-second interval callback performs the same update as next. */
    method AutoAdvance()
      requires Valid()
      modifies this
      ensures Valid()
      ensures currentSlide == NextSlide(old(currentSlide), totalSlides)
    {
      currentSlide := (currentSlide + 1) % totalSlides;
    }
  }
}
