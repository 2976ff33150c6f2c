/**
 * The pipes of ai_learns_flappy_bird.py: a pair of barriers at horizontal position x
 * with a fixed vertical gap, scrolling left at a constant speed. The height of the gap
 * comes from `random.randrange(50, 450)`; here it is an input.
 */
module Obstacles {

  const GAP: real := 200.0       // Pipe.GAP
  const PIPE_VEL: real := 5.0    // Pipe.VEL
  const SPAWN_X: real := 600.0   // where every pipe is created
  const MIN_HEIGHT: int := 50    // randrange(50, 450): lowest height
  const MAX_HEIGHT: int := 450   // randrange(50, 450): first height out of range

  /** What the collision test and the policy's observation read of a pipe. */
  datatype PipeView = PipeView(x: real, height: real, top: real, bottom: real)

  /**
   * The gap height is in range, and the two barriers sit at its edges, for a top
   * barrier image `topImageHeight` high.
   */
  predicate WellPlaced(v: PipeView, topImageHeight: real) {
    MIN_HEIGHT as real <= v.height < MAX_HEIGHT as real &&
    v.bottom == v.height + GAP &&
    v.top == v.height - topImageHeight
  }

  /** The view of a pipe after one `Pipe.move`: 5 further left, with the same gap. */
  function Shifted(v: PipeView): (r: PipeView)
    ensures r.x == v.x - PIPE_VEL && r.height == v.height && r.top == v.top && r.bottom == v.bottom
  {
    v.(x := v.x - PIPE_VEL)
  }

  /** The view of a pipe after n moves: it has scrolled 5 per move and nothing else changed. */
  function ShiftedN(v: PipeView, n: nat): (r: PipeView)
    ensures r.x == v.x - PIPE_VEL * n as real
    ensures r.height == v.height && r.top == v.top && r.bottom == v.bottom
  {
    if n == 0 then v else Shifted(ShiftedN(v, n - 1))
  }

  /** Views that each follow the one before by one move are the first view moved i times. */
  lemma {:induction false} KeptViews(vs: seq<PipeView>, i: nat)
    requires i < |vs|
    requires forall j :: 0 < j < |vs| ==> vs[j] == Shifted(vs[j - 1])
    ensures vs[i] == ShiftedN(vs[0], i)
  {
    if i > 0 {
      KeptViews(vs, i - 1);
    }
  }

  /**
   * When a pipe is retired. `vs[i]` is how a pipe spawned at SPAWN_X is seen at the start
   * of the i-th tick after its spawn: each tick that keeps it moves it once, so each view
   * is the one before shifted. It is collected for removal in the first tick that starts
   * with its right edge left of the screen, the last of `vs`; that is the tick after
   * exactly n moves, where 600 + width < 5n <= 605 + width.
   */
  lemma RetiredAfter(vs: seq<PipeView>, width: real)
    requires |vs| > 0 && vs[0].x == SPAWN_X && width >= 0.0
    requires forall j :: 0 < j < |vs| ==> vs[j] == Shifted(vs[j - 1])
    requires forall j :: 0 <= j < |vs| - 1 ==> vs[j].x + width >= 0.0
    requires vs[|vs| - 1].x + width < 0.0
    ensures PIPE_VEL * (|vs| - 1) as real > SPAWN_X + width
    ensures PIPE_VEL * (|vs| - 1) as real <= SPAWN_X + width + PIPE_VEL
  {
    var n := |vs| - 1;
    KeptViews(vs, n);
    if n > 0 {
      KeptViews(vs, n - 1);
    }
  }

  class Pipe {
    var x: real
    var height: real
    var top: real
    var bottom: real
    var passed: bool
    const topImageHeight: real   // PIPE_TOP.get_height()

    ghost predicate Valid()
      reads this
    {
      WellPlaced(View(), topImageHeight)
    }

    function View(): PipeView
      reads this
    {
      PipeView(x, height, top, bottom)
    }

    constructor (x0: real, h: int, topImageHeight: real)
      requires MIN_HEIGHT <= h < MAX_HEIGHT
      ensures Valid() && x == x0 && height == h as real && !passed
      ensures this.topImageHeight == topImageHeight
    {
      x := x0;
      height := 0.0;
      top := 0.0;
      bottom := 0.0;
      passed := false;
      this.topImageHeight := topImageHeight;
      new;
      SetHeight(h);
    }

    /** `set_height`, with the drawn height h as input: the gap opens at h and is GAP high. */
    method SetHeight(h: int)
      requires MIN_HEIGHT <= h < MAX_HEIGHT
      modifies this
      ensures Valid() && height == h as real
      ensures bottom - height == GAP
      ensures x == old(x) && passed == old(passed)
    {
      height := h as real;
      top := height - topImageHeight;
      bottom := height + GAP;
    }

    /** `move`: scrolls left by PIPE_VEL; nothing else changes. */
    method Move()
      modifies this
      ensures x == old(x) - PIPE_VEL
      ensures View() == Shifted(old(View()))
      ensures height == old(height) && top == old(top) && bottom == old(bottom) && passed == old(passed)
    {
      x := x - PIPE_VEL;
    }

    /**
     * The passage check of the inner collision loop: a pipe not yet passed whose x is
     * left of `birdX` is marked passed, and the mark is reported.
     */
    method CheckPassed(birdX: real) returns (newly: bool)
      modifies this
      ensures newly == (!old(passed) && x < birdX)
      ensures passed == (old(passed) || newly)
      ensures View() == old(View())
    {
      newly := false;
      if !passed && x < birdX {
        passed := true;
        newly := true;
      }
    }
  }
}
