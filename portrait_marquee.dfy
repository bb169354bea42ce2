/**
 * The vertical portrait marquee: a column of images shown twice over and
 * scrolled up or down in a loop, paused by reduced-motion preference or by
 * hovering. The media query and hover events are inputs to its handlers.
 */
module PortraitMarquee {

  /** `doubled`: the items, then the items again, so the loop has no seam. */
  function Doubled<T>(items: seq<T>): (r: seq<T>)
    ensures |r| == 2 * |items|
    ensures forall i :: 0 <= i < |r| ==> r[i] == items[i % |items|]
  {
    var r := items + items;
    forall i | 0 <= i < |r|
      ensures r[i] == items[i % |items|]
    {
      IndexInCopy(i, |items|);
    }
    r
  }

  /** Position `i` of two back-to-back copies of `n` items lies at `i % n` of its copy. */
  lemma IndexInCopy(i: int, n: int)
    requires 0 <= i < 2 * n
    ensures i % n == if i < n then i else i - n
  {
    var k := if i < n then 0 else 1;
    var m := i - k * n;
    assert i == k * n + m && 0 <= m < n;
  }

  datatype Direction = Up | Down

  /** The keyframes played: downwards only for `down`, upwards otherwise. */
  function AnimationName(direction: Direction): (name: string)
    ensures name == "vertical-marquee-down" <==> direction.Down?
    ensures name == "vertical-marquee-up" <==> direction.Up?
  {
    if direction.Down? then "vertical-marquee-down" else "vertical-marquee-up"
  }

  /** The two pause flags. */
  class Marquee {
    var pausedByUser: bool
    var pausedByHover: bool

    /** `isPaused`: either flag pauses the marquee. */
    predicate IsPaused()
      reads this
    {
      pausedByUser || pausedByHover
    }

    constructor()
      ensures !pausedByUser && !pausedByHover && !IsPaused()
    {
      pausedByUser := false;
      pausedByHover := false;
    }

    /** `apply`: a reduced-motion preference pauses the marquee; the preference going away does not resume it. */
    method ApplyReducedMotion(prefersReducedMotion: bool)
      modifies this`pausedByUser
      ensures pausedByUser == (old(pausedByUser) || prefersReducedMotion)
      ensures old(pausedByUser) ==> pausedByUser
    {
      if prefersReducedMotion {
        pausedByUser := true;
      }
    }

    /** The hover enter and leave handlers: hovering pauses only with `pauseOnHover`. */
    method OnHover(pauseOnHover: bool, entering: bool)
      modifies this`pausedByHover
      ensures pausedByHover == if pauseOnHover then entering else old(pausedByHover)
    {
      if pauseOnHover {
        pausedByHover := entering;
      }
    }
  }
}
