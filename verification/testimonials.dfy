/**
 * The testimonial carousel's current index: "next" and "previous" buttons
 * and one dot per testimonial. The list has four entries; the rules are
 * stated for any non-empty list.
 */
module Testimonials {

  const TestimonialCount: int := 4

  /** A user action: next, previous, or a click on the dot for `index`. */
  datatype Event = Next | Prev | SelectDot(index: int)

  /** JavaScript's `%` (the sign follows the dividend). */
  function JsRem(a: int, n: int): (r: int)
    requires n > 0
    ensures a >= 0 ==> 0 <= r < n && r == a % n
    ensures a < 0 ==> -n < r <= 0
  {
    if a >= 0 then a % n else -((-a) % n)
  }

  /** `nextTestimonial`: `(prev + 1) % n`. */
  function NextIndex(i: int, n: int): (j: int)
    requires n > 0
    ensures 0 <= i < n ==> j == (if i == n - 1 then 0 else i + 1)
  {
    JsRem(i + 1, n)
  }

  /** `prevTestimonial`: `(prev - 1 + n) % n`. */
  function PrevIndex(i: int, n: int): (j: int)
    requires n > 0
    ensures 0 <= i < n ==> j == (if i == 0 then n - 1 else i - 1)
  {
    JsRem(i - 1 + n, n)
  }

  /** The dots rendered: one per index `0 .. n-1`. */
  function Dots(n: nat): (d: seq<int>)
    ensures |d| == n
    ensures forall k :: 0 <= k < n ==> d[k] == k
  {
    seq(n, k => k)
  }

  /** A click can only land on a rendered dot. */
  predicate Clickable(e: Event, n: nat) {
    e.SelectDot? ==> e.index in Dots(n)
  }

  function Step(i: int, e: Event, n: int): int
    requires n > 0
  {
    match e
    case Next => NextIndex(i, n)
    case Prev => PrevIndex(i, n)
    case SelectDot(k) => k
  }

  function Run(i: int, events: seq<Event>, n: int): int
    requires n > 0
    decreases |events|
  {
    if |events| == 0 then i else Run(Step(i, events[0], n), events[1..], n)
  }

  /** From a valid index, any sequence of button and dot clicks keeps the index valid. */
  lemma {:induction false} RunStaysInRange(i: int, events: seq<Event>, n: int)
    requires n > 0 && 0 <= i < n
    requires forall k :: 0 <= k < |events| ==> Clickable(events[k], n)
    ensures 0 <= Run(i, events, n) < n
    decreases |events|
  {
    if |events| > 0 {
      var j := Step(i, events[0], n);
      assert Clickable(events[0], n);
      if events[0].SelectDot? {
        var k :| 0 <= k < |Dots(n)| && Dots(n)[k] == events[0].index;
      }
      RunStaysInRange(j, events[1..], n);
    }
  }

  /** The carousel starts at 0 and stays on a valid index. */
  lemma CarouselIndexValid(events: seq<Event>)
    requires forall k :: 0 <= k < |events| ==> Clickable(events[k], TestimonialCount)
    ensures 0 <= Run(0, events, TestimonialCount) < TestimonialCount
  {
    RunStaysInRange(0, events, TestimonialCount);
  }

  /** "previous" undoes "next", and "next" undoes "previous". */
  lemma NextPrevInverse(i: int, n: int)
    requires n > 0 && 0 <= i < n
    ensures PrevIndex(NextIndex(i, n), n) == i
    ensures NextIndex(PrevIndex(i, n), n) == i
  {
  }

  /** `k` presses of "next". */
  function NextTimes(i: int, k: nat, n: int): int
    requires n > 0
  {
    if k == 0 then i else NextIndex(NextTimes(i, k - 1, n), n)
  }

  /** `a + b` presses are `a` presses followed by `b` presses. */
  lemma {:induction false} NextTimesAdd(i: int, a: nat, b: nat, n: int)
    requires n > 0
    ensures NextTimes(i, a + b, n) == NextTimes(NextTimes(i, a, n), b, n)
    decreases b
  {
    if b > 0 {
      NextTimesAdd(i, a, b - 1, n);
    }
  }

  /** Before the wrap-around, `k` presses advance the index by `k`. */
  lemma {:induction false} NextTimesBelow(i: int, k: nat, n: int)
    requires n > 0 && 0 <= i && i + k < n
    ensures NextTimes(i, k, n) == i + k
  {
    if k > 0 {
      NextTimesBelow(i, k - 1, n);
    }
  }

  /** Pressing "next" n times comes back to the starting testimonial. */
  lemma NextCycle(i: int, n: int)
    requires n > 0 && 0 <= i < n
    ensures NextTimes(i, n, n) == i
  {
    var a := n - 1 - i;
    NextTimesBelow(i, a, n);
    NextTimesAdd(i, a, 1, n);
    NextTimesAdd(i, a + 1, i, n);
    NextTimesBelow(0, i, n);
  }
}
