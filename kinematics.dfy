/**
 * The bird of ai_learns_flappy_bird.py: its vertical motion (`Bird.move`), its one
 * control action (`Bird.jump`) and the cosmetic tilt that `move` keeps up to date.
 * The animation frame counter and image of `Bird.draw` are presentation and are not
 * modelled.
 */
module Kinematics {

  const MAX_ROTATION: real := 25.0   // Bird.MAX_ROTATION
  const ROT_VEL: real := 20.0        // Bird.ROT_VEL
  const TILT_FLOOR: real := -90.0    // tilt decays only while above this
  const JUMP_VEL: real := -10.5      // velocity set by jump
  const TERMINAL: real := 16.0       // largest downward displacement of one move
  const UP_BOOST: real := 2.0        // extra lift added to every upward displacement
  const TILT_MARGIN: real := 50.0    // tilt stays up while the bird is within this of its jump height

  /** The fields of a `Bird` that `jump` and `move` read and write. */
  datatype BirdState = BirdState(x: real, y: real, tilt: real, tickCount: nat, vel: real, height: real)

  /**
   * The unclamped displacement `vel * t + 1.5 * t**2` at tick count t: none at t = 0, and
   * upwards exactly while the velocity is below -1.5 t.
   */
  function Fall(vel: real, t: nat): (f: real)
    ensures t == 0 ==> f == 0.0
    ensures t > 0 ==> (f < 0.0 <==> vel < -1.5 * t as real)
    ensures t > 0 ==> (f == 0.0 <==> vel == -1.5 * t as real)
  {
    vel * t as real + 1.5 * (t as real) * (t as real)
  }

  /** The displacement of one move at tick count t: clamped at 16, and two more upwards when negative. */
  function Displacement(vel: real, t: nat): (d: real)
    ensures d <= TERMINAL
    ensures d < 0.0 <==> Fall(vel, t) < 0.0
    ensures d < 0.0 ==> d < -UP_BOOST
    ensures Fall(vel, t) >= TERMINAL ==> d == TERMINAL
  {
    var clamped := if Fall(vel, t) >= TERMINAL then TERMINAL else Fall(vel, t);
    if clamped < 0.0 then clamped - UP_BOOST else clamped
  }

  /** The state after `Bird.move`. */
  function Moved(s: BirdState): (r: BirdState)
    ensures r.tickCount == s.tickCount + 1
    ensures r.x == s.x && r.vel == s.vel && r.height == s.height
    ensures r.y <= s.y + TERMINAL
    ensures r.y < s.y <==> Fall(s.vel, s.tickCount + 1) < 0.0
    ensures r.y < s.y ==> r.y < s.y - UP_BOOST
    ensures r.y < s.y || r.y < s.height + TILT_MARGIN ==>
              r.tilt == if s.tilt < MAX_ROTATION then MAX_ROTATION else s.tilt
    ensures !(r.y < s.y || r.y < s.height + TILT_MARGIN) ==>
              r.tilt == if s.tilt > TILT_FLOOR then s.tilt - ROT_VEL else s.tilt
    ensures -110.0 < s.tilt <= MAX_ROTATION ==> -110.0 < r.tilt <= MAX_ROTATION
  {
    var t := s.tickCount + 1;
    var d := Displacement(s.vel, t);
    var y := s.y + d;
    var tilt :=
      if d < 0.0 || y < s.height + TILT_MARGIN then
        (if s.tilt < MAX_ROTATION then MAX_ROTATION else s.tilt)
      else
        (if s.tilt > TILT_FLOOR then s.tilt - ROT_VEL else s.tilt);
    s.(y := y, tilt := tilt, tickCount := t)
  }

  /**
   * The state after `Bird.jump`: the bird stays where it is, and its next move lifts it
   * by more than two.
   */
  function Jumped(s: BirdState): (r: BirdState)
    ensures r.x == s.x && r.y == s.y && r.tilt == s.tilt
    ensures Moved(r).y < r.y - UP_BOOST
  {
    s.(vel := JUMP_VEL, tickCount := 0, height := s.y)
  }

  /** The state after n consecutive moves. */
  function MoveN(s: BirdState, n: nat): BirdState {
    if n == 0 then s else Moved(MoveN(s, n - 1))
  }

  /** Moves count ticks and never change the horizontal position, the velocity or the jump height. */
  lemma {:induction false} MoveNTracks(s: BirdState, n: nat)
    ensures MoveN(s, n).tickCount == s.tickCount + n
    ensures MoveN(s, n).x == s.x && MoveN(s, n).vel == s.vel && MoveN(s, n).height == s.height
  {
    if n > 0 {
      MoveNTracks(s, n - 1);
    }
  }

  /**
   * The upward window of a jump: each of the six moves after a jump lifts the bird
   * by more than two, and the seventh leaves it where it is.
   */
  lemma {:induction false} JumpWindow(s: BirdState, k: nat)
    requires 1 <= k <= 7
    ensures k <= 6 ==> MoveN(Jumped(s), k).y < MoveN(Jumped(s), k - 1).y - UP_BOOST
    ensures k == 7 ==> MoveN(Jumped(s), k).y == MoveN(Jumped(s), k - 1).y
  {
    MoveNTracks(Jumped(s), k - 1);
    var t := k as real;
    assert Fall(JUMP_VEL, k) == 1.5 * t * (t - 7.0);
    if k <= 6 {
      assert t - 7.0 < 0.0 && t > 0.0;
      assert 1.5 * t * (t - 7.0) < 0.0;
    }
  }

  /** The height gained over the first k moves after a jump, summed one displacement at a time. */
  function Climbed(k: nat): real {
    if k == 0 then 0.0 else Climbed(k - 1) - Displacement(JUMP_VEL, k)
  }

  /** Each move after a jump changes the height by that tick's displacement at the jump velocity. */
  lemma ClimbStep(s: BirdState, k: nat)
    ensures MoveN(Jumped(s), k + 1).y == MoveN(Jumped(s), k).y + Displacement(JUMP_VEL, k + 1)
  {
    MoveNTracks(Jumped(s), k);
  }

  /** The height a jump gains: the bird sits 96 higher after the seven moves of the window. */
  lemma {:induction false} JumpClimb(s: BirdState)
    ensures MoveN(Jumped(s), 7).y == s.y - 96.0
  {
    var j := Jumped(s);
    var k := 0;
    while k < 7
      invariant k <= 7
      invariant MoveN(j, k).y == s.y - Climbed(k)
    {
      ClimbStep(s, k);
      k := k + 1;
    }
  }

  /** A bird in the game loop: the fields `jump` and `move` update in place. */
  class Bird {
    const x: real
    var y: real
    var tilt: real
    var tickCount: nat
    var vel: real
    var height: real

    function State(): BirdState
      reads this
    {
      BirdState(x, y, tilt, tickCount, vel, height)
    }

    constructor (x0: real, y0: real)
      ensures State() == BirdState(x0, y0, 0.0, 0, 0.0, y0)
    {
      x, y := x0, y0;
      tilt := 0.0;
      tickCount := 0;
      vel := 0.0;
      height := y0;
    }

    /** Sets the jump velocity, restarts the tick count and records the jump height; nothing else changes. */
    method Jump()
      modifies this
      ensures State() == old(State()).(vel := JUMP_VEL, tickCount := 0, height := old(y))
    {
      vel := JUMP_VEL;
      tickCount := 0;
      height := y;
    }

    method Move()
      modifies this
      ensures State() == Moved(old(State()))
    {
      tickCount := tickCount + 1;
      var d := vel * tickCount as real + 1.5 * (tickCount as real) * (tickCount as real);
      if d >= TERMINAL {
        d := TERMINAL;
      }
      if d < 0.0 {
        d := d - UP_BOOST;
      }
      y := y + d;
      if d < 0.0 || y < height + TILT_MARGIN {
        if tilt < MAX_ROTATION {
          tilt := MAX_ROTATION;
        }
      } else {
        if tilt > TILT_FLOOR {
          tilt := tilt - ROT_VEL;
        }
      }
    }
  }
}
