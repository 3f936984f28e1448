/** The scroll-triggered stats counter of the home page.
    A counter waits until its element is half visible, then counts from 0 up
    to its target in forty equal steps and stops on the exact target.

    The specification is stated by tick number: after k ticks the exact
    accumulator holds k * target / 40 (`Scaled` over 40), the animation has
    finished once that reaches the target (`Reached`), and the number on
    screen is `ShownAt(target, k)`. The class `Counter` keeps the accumulator
    as a `real`, as the component keeps a number, and is proved against these
    functions. */
module Counters {

  /** Number of equal steps of one animation. */
  const Steps: int := 40

  /** Accumulator after `k` ticks, scaled by `Steps` so it stays an integer:
      the real accumulator is `Scaled(target, k) / 40`. */
  function Scaled(target: int, k: nat): int {
    k * target
  }

  /** The tick `k` stops the timer: the accumulator has reached the target.
      For a positive target that is the fortieth tick and every later one; a
      zero target is reached at once, and a negative one only up to tick 40,
      since its accumulator moves away from the target after that. */
  function Reached(target: int, k: nat): (b: bool)
    ensures target > 0 ==> (b <==> k >= Steps)
    ensures target == 0 ==> b
    ensures target < 0 ==> (b <==> k <= Steps)
  {
    Scaled(target, k) >= Steps * target
  }

  /** The number on screen once `k >= 1` ticks have run. For a non-negative
      target it lies between 0 and the target, and the tick that stops the
      timer shows the target itself. */
  function ShownAt(target: int, k: nat): (r: int)
    ensures target >= 0 ==> 0 <= r <= target
    ensures k == StopTick(target) ==> r == target
  {
    if Reached(target, k) then target else Scaled(target, k) / Steps
  }

  /** The tick on which the timer is cleared. */
  function StopTick(target: int): (k: nat)
    ensures k >= 1
  {
    if target > 0 then Steps else 1
  }

  /** Flooring k * target / 40 as a real gives the integer quotient. */
  lemma FloorOfFortieth(n: int)
    ensures ((n as real) / (Steps as real)).Floor == n / Steps
  {
  }

  /** For a positive target the animation stops exactly at tick 40; for a zero
      or negative target it stops at the first tick. */
  lemma StopsAtStopTick(target: int, k: nat)
    requires k >= 1
    ensures Reached(target, StopTick(target))
    ensures 1 <= k < StopTick(target) ==> !Reached(target, k)
  {
  }

  /** For a non-negative target the number on screen never goes down from one
      tick to a later one. */
  lemma ShownMonotone(target: int, j: nat, k: nat)
    requires target >= 0 && j <= k
    ensures ShownAt(target, j) <= ShownAt(target, k)
  {
    if !Reached(target, k) {
      assert target > 0 && !Reached(target, j);
      assert Scaled(target, k) - Scaled(target, j) == (k - j) * target >= 0;
    }
  }

  /** Before the last tick the number on screen is floor(k * target / 40);
      the fortieth tick shows the exact target. */
  lemma ShownBeforeEnd(target: int, k: nat)
    requires target >= 0 && 1 <= k
    ensures k < Steps ==> ShownAt(target, k) == (k * target) / Steps
    ensures k == Steps ==> ShownAt(target, k) == target && Reached(target, k)
  {
  }

  /** The counter of 200 students counts 5, 10, ..., 195 and then 200. */
  lemma TwoHundredSequence(k: nat)
    requires 1 <= k <= Steps
    ensures ShownAt(200, k) == 5 * k
  {
  }

  /** The counter of 8 awards shows 0 for ticks 1 to 4, 1 at tick 5, and 8 at
      tick 40. */
  lemma EightSequence(k: nat)
    requires 1 <= k <= Steps
    ensures k <= 4 ==> ShownAt(8, k) == 0
    ensures k == 5 ==> ShownAt(8, k) == 1
    ensures k == Steps ==> ShownAt(8, k) == 8
  {
  }

  /** The numbers shown by ticks 1 to k, in order: entry i is what tick
      i + 1 shows. */
  function ShownRun(target: int, k: nat): (r: seq<int>)
    ensures |r| == k
    ensures forall i :: 0 <= i < k ==> r[i] == ShownAt(target, i + 1)
  {
    if k == 0 then [] else ShownRun(target, k - 1) + [ShownAt(target, k)]
  }

  /** For a target >= 0 the run of shown numbers is sorted and bounded by the
      target. */
  lemma {:induction false} ShownRunSorted(target: int, k: nat)
    requires target >= 0
    ensures forall i, j :: 0 <= i <= j < k ==> ShownRun(target, k)[i] <= ShownRun(target, k)[j] <= target
  {
    if k > 0 {
      ShownRunSorted(target, k - 1);
      forall i | 1 <= i <= k
        ensures ShownAt(target, i) <= ShownAt(target, k) <= target
      {
        ShownMonotone(target, i, k);
      }
    }
  }

  /** The whole run of the counter of 200 students: 5, 10, ..., 195, 200. */
  lemma TwoHundredRun()
    ensures ShownRun(200, Steps) == seq(Steps, i => 5 * (i + 1))
  {
    forall i | 0 <= i < Steps
      ensures ShownRun(200, Steps)[i] == 5 * (i + 1)
    {
      TwoHundredSequence(i + 1);
    }
  }

  /** One mounted counter: `count` is what it renders, `started` the one-shot
      latch, `current` the accumulator and `running` whether its interval
      timer is live. `ticks` counts the timer callbacks run so far and
      `history` lists the numbers they showed. */
  class Counter {
    const target: int
    var count: int
    var started: bool
    var current: real
    var running: bool
    var mounted: bool
    ghost var ticks: nat
    ghost var history: seq<int>

    ghost predicate Valid()
      reads this
    {
      && current == (Scaled(target, ticks) as real) / (Steps as real)
      && ticks <= StopTick(target)
      && history == ShownRun(target, ticks)
      && (!started ==> !running && ticks == 0)
      && (ticks == 0 ==> count == 0)
      && (ticks > 0 ==> count == ShownAt(target, ticks))
      && (running ==> mounted && ticks < StopTick(target))
      && (started && mounted && !running ==> ticks == StopTick(target))
    }

    /** Mounting: count 0, latch open, no timer. */
    constructor (target: int)
      ensures Valid() && this.target == target
      ensures count == 0 && !started && !running && mounted && ticks == 0
    {
      this.target := target;
      count := 0;
      started := false;
      current := 0.0;
      running := false;
      mounted := true;
      ticks := 0;
      history := [];
    }

    /** The visibility observer reports an entry. The first intersecting
        report sets the latch; React then runs the animation effect once,
        which resets the accumulator and starts the interval timer. */
    method Observe(isIntersecting: bool)
      requires Valid()
      modifies this
      ensures Valid()
      ensures started == (old(started) || (mounted && isIntersecting))
      ensures running == (old(running) || (!old(started) && started))
      ensures count == old(count) && ticks == old(ticks) && history == old(history) && mounted == old(mounted)
    {
      if mounted && isIntersecting && !started {
        started := true;
        current := 0.0;
        running := true;
      }
    }

    /** One interval callback: add target / 40 to the accumulator, then show
        the target and clear the timer once it is reached, or the floor of the
        accumulator otherwise. Without a live timer nothing happens. */
    method Tick()
      requires Valid()
      modifies this
      ensures Valid()
      ensures !old(running) ==> count == old(count) && running == old(running) && ticks == old(ticks) && current == old(current)
      ensures old(running) ==> ticks == old(ticks) + 1 && count == ShownAt(target, ticks)
      ensures history == if old(running) then old(history) + [count] else old(history)
      ensures old(running) ==> (running <==> !Reached(target, ticks))
      ensures target >= 0 ==> old(count) <= count <= target
      ensures old(running) && !running ==> count == target
      ensures started == old(started) && mounted == old(mounted)
    {
      if running {
        ghost var k := ticks;
        assert Scaled(target, k + 1) == Scaled(target, k) + target;
        current := current + (target as real) / (Steps as real);
        ticks := ticks + 1;
        assert current == (Scaled(target, ticks) as real) / (Steps as real);
        StopsAtStopTick(target, ticks);
        if current >= target as real {
          count := target;
          running := false;
        } else {
          FloorOfFortieth(Scaled(target, ticks));
          count := current.Floor;
        }
        history := history + [count];
        if target >= 0 && k > 0 {
          ShownMonotone(target, k, ticks);
        }
      }
    }

    /** Unmounting disconnects the observer and clears the timer, so no
        later observation or tick changes anything. */
    method Unmount()
      requires Valid()
      modifies this
      ensures Valid()
      ensures !mounted && !running
      ensures count == old(count) && started == old(started) && ticks == old(ticks) && history == old(history)
    {
      mounted := false;
      running := false;
    }
  }
}
