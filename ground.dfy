/**
 * The scrolling ground (`Base`) of ai_learns_flappy_bird.py: two copies of the ground
 * image side by side, both moving left; one that has scrolled off the left edge is
 * placed right after the other.
 */
module Ground {

  const BASE_VEL: real := 5.0   // Base.VEL

  function Min(a: real, b: real): real {
    if a <= b then a else b
  }

  /** The segment positions after one `Base.move` for an image `width` wide. */
  function BaseMoved(x1: real, x2: real, width: real): (r: (real, real))
    ensures r.0 == x1 - BASE_VEL || r.0 == x2 - BASE_VEL + width
    ensures r.1 == x2 - BASE_VEL || r.1 == r.0 + width
  {
    var a := x1 - BASE_VEL;
    var b := x2 - BASE_VEL;
    var a' := if a + width < 0.0 then b + width else a;
    var b' := if b + width < 0.0 then a' + width else b;
    (a', b')
  }

  /**
   * The two segments are exactly one image width apart, and the left one starts
   * between -width and 0, so together they cover the screen from 0 to width.
   */
  predicate Tiled(x1: real, x2: real, width: real) {
    (x2 == x1 + width || x1 == x2 + width) && -width <= Min(x1, x2) <= 0.0
  }

  /** One move keeps the segments tiled, provided the image is at least one step wide. */
  lemma MoveKeepsTiled(x1: real, x2: real, width: real)
    requires width >= BASE_VEL && Tiled(x1, x2, width)
    ensures Tiled(BaseMoved(x1, x2, width).0, BaseMoved(x1, x2, width).1, width)
  {
  }

  /** The segment positions after n moves. */
  function BaseMovedN(x1: real, x2: real, width: real, n: nat): (real, real) {
    if n == 0 then (x1, x2)
    else
      var p := BaseMovedN(x1, x2, width, n - 1);
      BaseMoved(p.0, p.1, width)
  }

  /** From the initial placement `x1 = 0, x2 = WIDTH`, the segments stay tiled forever. */
  lemma {:induction false} AlwaysTiled(width: real, n: nat)
    requires width >= BASE_VEL
    ensures Tiled(BaseMovedN(0.0, width, width, n).0, BaseMovedN(0.0, width, width, n).1, width)
  {
    if n > 0 {
      AlwaysTiled(width, n - 1);
      var p := BaseMovedN(0.0, width, width, n - 1);
      MoveKeepsTiled(p.0, p.1, width);
    }
  }

  class Base {
    const y: real
    const width: real   // Base.WIDTH, the width of the ground image
    var x1: real
    var x2: real

    constructor (y0: real, width: real)
      ensures y == y0 && this.width == width
      ensures x1 == 0.0 && x2 == width
    {
      y := y0;
      this.width := width;
      x1 := 0.0;
      x2 := width;
    }

    method Move()
      modifies this
      ensures (x1, x2) == BaseMoved(old(x1), old(x2), width)
    {
      x1 := x1 - BASE_VEL;
      x2 := x2 - BASE_VEL;
      if x1 + width < 0.0 {
        x1 := x2 + width;
      }
      if x2 + width < 0.0 {
        x2 := x1 + width;
      }
    }
  }
}
