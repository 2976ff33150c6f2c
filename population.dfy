/**
 * One generation of `main` in ai_learns_flappy_bird.py: the parallel lists `birds`,
 * `nets` and `ge`, the `pipes` list, the `score`, the ground, and the body of the
 * `while run:` loop that runs once per tick until every bird is gone.
 *
 * The feed-forward networks are given as one pure function `activate` from a network
 * and an observation to the network's first output; the pixel-mask collision test of
 * `Pipe.collide` is one pure function `collide` from the pipe and the bird; the height
 * that `random.randrange(50, 450)` draws for a new pipe is an input of each tick.
 */
module Population {
  import opened Sequences
  import opened Kinematics
  import opened Obstacles
  import opened Ground

  const BIRD_X: real := 230.0           // Bird(230, 350)
  const BIRD_Y: real := 350.0
  const FLOOR_Y: real := 730.0          // Base(730) and the bound of the out-of-bounds test
  const SURVIVAL_REWARD: real := 0.1    // per bird per tick of the movement loop
  const CRASH_PENALTY: real := 1.0      // for hitting a pipe
  const PASS_BONUS: real := 5.0         // for every genome still listed when a pipe is passed
  const JUMP_THRESHOLD: real := 0.5

  /** A NEAT genome; the game loop reads and writes only its fitness. */
  class Genome {
    var fitness: real
  }

  /** The feed-forward network built from the genome at this index of the population. */
  datatype Net = Net(genome: nat)

  /** The three inputs every network sees. */
  datatype Observation = Observation(y: real, toGapTop: real, toGapBottom: real)

  function Abs(v: real): real {
    if v < 0.0 then -v else v
  }

  /**
   * The network input of line 245: the bird's height and its distances to the upper
   * and lower edges of the gap of the lead pipe. For a pipe whose gap is GAP high, the
   * two distances add up to GAP exactly when the bird is level with the gap.
   */
  function Observe(s: BirdState, p: PipeView): (o: Observation)
    ensures o.y == s.y && o.toGapTop >= 0.0 && o.toGapBottom >= 0.0
    ensures p.bottom == p.height + GAP ==> o.toGapTop + o.toGapBottom >= GAP
    ensures p.bottom == p.height + GAP ==>
      (o.toGapTop + o.toGapBottom == GAP <==> p.height <= s.y <= p.bottom)
  {
    Observation(s.y, Abs(s.y - p.height), Abs(s.y - p.bottom))
  }

  /** The decision rule of line 246. */
  predicate Jumps(output: real) {
    output > JUMP_THRESHOLD
  }

  /**
   * One bird's turn in the movement loop (lines 241-247): it moves, then jumps when its
   * network, shown the moved position, answers above the threshold.
   */
  function BirdStep(s: BirdState, net: Net, lead: PipeView, activate: (Net, Observation) -> real): (r: BirdState)
    ensures r.x == s.x && r.y == Moved(s).y && r.y <= s.y + TERMINAL && r.tilt == Moved(s).tilt
    ensures Jumps(activate(net, Observe(Moved(s), lead))) ==>
      r.tickCount == 0 && r.vel == JUMP_VEL && r.height == r.y
    ensures !Jumps(activate(net, Observe(Moved(s), lead))) ==>
      r.tickCount == s.tickCount + 1 && r.vel == s.vel && r.height == s.height
  {
    var m := Moved(s);
    if Jumps(activate(net, Observe(m, lead))) then Jumped(m) else m
  }

  /** The movement loop on birds in the states `ss` with the networks `ns`, all shown the pipe `lead`. */
  function Flown(ss: seq<BirdState>, ns: seq<Net>, lead: PipeView, activate: (Net, Observation) -> real)
    : (r: seq<BirdState>)
    requires |ss| == |ns|
    ensures |r| == |ss|
    ensures forall i :: 0 <= i < |ss| ==> r[i] == BirdStep(ss[i], ns[i], lead, activate)
  {
    seq(|ss|, i requires 0 <= i < |ss| => BirdStep(ss[i], ns[i], lead, activate))
  }

  /**
   * `pipe_ind` of lines 231-235: the second pipe once the first bird is past the right
   * edge of the first pipe, provided there is a second pipe.
   */
  function LeadPipeIndex(firstBirdX: real, pipeCount: nat, first: PipeView, pipeWidth: real): (i: nat)
    ensures pipeCount > 0 ==> i < pipeCount
    ensures i == 1 <==> pipeCount > 1 && firstBirdX > first.x + pipeWidth
    ensures i != 1 ==> i == 0
  {
    if pipeCount > 1 && firstBirdX > first.x + pipeWidth then 1 else 0
  }

  /** The states of the birds `bs`, in order. */
  function States(bs: seq<Bird>): (ss: seq<BirdState>)
    reads bs
    ensures |ss| == |bs|
    ensures forall i :: 0 <= i < |bs| ==> ss[i] == bs[i].State()
  {
    seq(|bs|, i requires 0 <= i < |bs| reads bs => bs[i].State())
  }

  /** Where the pipes `ps` stand, in order. */
  ghost function Views(ps: seq<Pipe>): (vs: seq<PipeView>)
    reads ps
    ensures |vs| == |ps|
    ensures forall k :: 0 <= k < |ps| ==> vs[k] == ps[k].View()
  {
    seq(|ps|, k requires 0 <= k < |ps| reads ps => ps[k].View())
  }

  /** The `passed` flags of the pipes `ps`, in order. */
  ghost function Flags(ps: seq<Pipe>): (ds: seq<bool>)
    reads ps
    ensures |ds| == |ps|
    ensures forall k :: 0 <= k < |ps| ==> ds[k] == ps[k].passed
  {
    seq(|ps|, k requires 0 <= k < |ps| reads ps => ps[k].passed)
  }

  /** The fitness of the genomes `gs`, in order. */
  ghost function Fitness(gs: seq<Genome>): (fs: seq<real>)
    reads gs
    ensures |fs| == |gs|
    ensures forall i :: 0 <= i < |gs| ==> fs[i] == gs[i].fitness
  {
    seq(|gs|, i requires 0 <= i < |gs| reads gs => gs[i].fitness)
  }

  /** Filtering a list of birds filters their states alike. */
  lemma {:induction false} KeepStates(bs: seq<Bird>, ss: seq<BirdState>, a: seq<bool>)
    requires |bs| == |ss| == |a|
    requires forall i :: 0 <= i < |bs| ==> bs[i].State() == ss[i]
    ensures |Keep(bs, a)| == |Keep(ss, a)|
    ensures forall j :: 0 <= j < |Keep(bs, a)| ==> Keep(bs, a)[j].State() == Keep(ss, a)[j]
  {
    if bs != [] {
      KeepStates(bs[1..], ss[1..], a[1..]);
    }
  }

  /** The states of the birds a filter keeps are the kept states. */
  lemma StatesKeep(bs: seq<Bird>, ss: seq<BirdState>, a: seq<bool>)
    requires States(bs) == ss && |a| == |bs|
    ensures States(Keep(bs, a)) == Keep(ss, a)
  {
    KeepStates(bs, ss, a);
  }

  /** For each bird state, whether `collide` finds it clear of the pipe seen as `p`. */
  function Misses(ss: seq<BirdState>, p: PipeView, collide: (PipeView, BirdState) -> bool): (m: seq<bool>)
    ensures |m| == |ss|
    ensures forall i :: 0 <= i < |ss| ==> m[i] == !collide(p, ss[i])
  {
    seq(|ss|, i requires 0 <= i < |ss| => !collide(p, ss[i]))
  }

  /** Testing the survivors of a filter is filtering the tests. */
  lemma {:induction false} MissesKeep(ss: seq<BirdState>, a: seq<bool>, p: PipeView,
                                      collide: (PipeView, BirdState) -> bool)
    requires |ss| == |a|
    ensures Misses(Keep(ss, a), p, collide) == Keep(Misses(ss, p, collide), a)
  {
    if ss != [] {
      MissesKeep(ss[1..], a[1..], p, collide);
      var head: seq<BirdState> := if a[0] then [ss[0]] else [];
      var rest := Keep(ss[1..], a[1..]);
      assert Keep(ss, a) == head + rest;
      assert Misses(head + rest, p, collide) == Misses(head, p, collide) + Misses(rest, p, collide);
      assert Misses(ss, p, collide)[1..] == Misses(ss[1..], p, collide);
    }
  }

  /**
   * The pipe that line 253 tests in iteration k of `for pipe in pipes`: always
   * `pipes[0]`, which has already made its own move once k > 0.
   */
  function CollisionView(first: PipeView, k: nat): PipeView {
    if k == 0 then first else Shifted(first)
  }

  /**
   * For each bird state, whether the bird is still listed after the first k iterations
   * of `for pipe in pipes` (lines 251-266), each of which pops the birds colliding with
   * `pipes[0]`. `AliveAt` gives the exact rule.
   */
  function Alive(ss: seq<BirdState>, first: PipeView, k: nat, collide: (PipeView, BirdState) -> bool): (a: seq<bool>)
    ensures |a| == |ss|
  {
    if k == 0 then AllTrue(|ss|)
    else And(Alive(ss, first, k - 1, collide), Misses(ss, CollisionView(first, k - 1), collide))
  }

  /**
   * Because line 253 always tests `pipes[0]`, a bird survives the sweep exactly when it
   * misses the first pipe before that pipe's move and, once a second iteration has
   * run, after it: however many pipes there are, no third test can pop anyone new.
   */
  lemma {:induction false} AliveAt(ss: seq<BirdState>, first: PipeView, k: nat,
                                   collide: (PipeView, BirdState) -> bool, i: nat)
    requires i < |ss|
    ensures Alive(ss, first, k, collide)[i] <==>
      (k >= 1 ==> !collide(first, ss[i])) && (k >= 2 ==> !collide(Shifted(first), ss[i]))
  {
    if k > 0 {
      AliveAt(ss, first, k - 1, collide, i);
    }
  }

  /**
   * Iteration k of the pipe loop on the survivors of the first k: popping those that
   * collide with `pipes[0]` as line 253 sees it leaves the survivors of k + 1 iterations.
   */
  lemma AlivePass<T>(xs: seq<T>, ss: seq<BirdState>, first: PipeView, k: nat, collide: (PipeView, BirdState) -> bool)
    requires |xs| == |ss|
    ensures Keep(Keep(xs, Alive(ss, first, k, collide)),
                 Misses(Keep(ss, Alive(ss, first, k, collide)), CollisionView(first, k), collide))
            == Keep(xs, Alive(ss, first, k + 1, collide))
  {
    var a := Alive(ss, first, k, collide);
    MissesKeep(ss, a, CollisionView(first, k), collide);
    KeepKeep(xs, a, Misses(ss, CollisionView(first, k), collide));
  }

  /** Some bird still listed after k iterations means some bird was listed after every earlier one. */
  lemma AliveEarlier(ss: seq<BirdState>, first: PipeView, j: nat, k: nat,
                     collide: (PipeView, BirdState) -> bool)
    requires j <= k && Count(Alive(ss, first, k, collide)) > 0
    ensures Count(Alive(ss, first, j, collide)) > 0
  {
    var i := CountWitness(Alive(ss, first, k, collide));
    AliveAt(ss, first, k, collide, i);
    AliveAt(ss, first, j, collide, i);
    CountPositive(Alive(ss, first, j, collide), i);
  }

  /** For each bird state, the out-of-bounds test of line 278. */
  function OutOfBounds(ss: seq<BirdState>, birdHeight: real): (bad: seq<bool>)
    ensures |bad| == |ss|
    ensures forall i :: 0 <= i < |ss| ==> bad[i] == (ss[i].y < 0.0 || ss[i].y + birdHeight >= FLOOR_Y)
  {
    seq(|ss|, i requires 0 <= i < |ss| => ss[i].y < 0.0 || ss[i].y + birdHeight >= FLOOR_Y)
  }

  /**
   * For each pipe view, whether the pipe's right edge, for an image `width` wide, is not
   * left of the screen: the pipes that line 263 does not collect for removal.
   */
  function Onscreen(vs: seq<PipeView>, width: real): (m: seq<bool>)
    ensures |m| == |vs|
    ensures forall k :: 0 <= k < |vs| ==> m[k] == (vs[k].x + width >= 0.0)
  {
    seq(|vs|, k requires 0 <= k < |vs| => vs[k].x + width >= 0.0)
  }

  /** The pipes collected in `rem` are exactly those off screen: the others are the ones kept. */
  lemma OnscreenKept(ps: seq<Pipe>, V: seq<PipeView>, rem: seq<Pipe>, width: real)
    requires |ps| == |V| && forall k :: 0 <= k < |ps| ==> (ps[k] in rem <==> V[k].x + width < 0.0)
    ensures Absent(ps, rem) == Onscreen(V, width)
  {
  }

  /** Where pipes seen as V stand after each has made one `Pipe.move`. */
  function ShiftedAll(V: seq<PipeView>): (W: seq<PipeView>)
    ensures |W| == |V| && forall k :: 0 <= k < |V| ==> W[k] == Shifted(V[k])
  {
    seq(|V|, k requires 0 <= k < |V| => Shifted(V[k]))
  }

  /**
   * The `passed` flags after the pipe loop (lines 251-266) over birds in the states S and
   * pipes seen as V with flags D: a pipe is passed when it was, or when some bird was
   * still listed at its iteration and the pipe is left of `leftoverX`.
   */
  function PassedAfter(S: seq<BirdState>, V: seq<PipeView>, D: seq<bool>,
                       collide: (PipeView, BirdState) -> bool, leftoverX: real): (Q: seq<bool>)
    requires |V| == |D| > 0
    ensures |Q| == |D|
    ensures forall k :: 0 <= k < |D| ==>
              Q[k] == (D[k] || (Count(Alive(S, V[0], k, collide)) > 0 && V[k].x < leftoverX))
  {
    seq(|D|, k requires 0 <= k < |D| => D[k] || (Count(Alive(S, V[0], k, collide)) > 0 && V[k].x < leftoverX))
  }

  /** Some flag went from clear in D to set in Q: what `add_pipe` records. */
  predicate SomeNewlyPassed(D: seq<bool>, Q: seq<bool>)
    requires |D| == |Q|
  {
    exists k :: 0 <= k < |D| && Q[k] && !D[k]
  }

  /** The fitness F after the genomes not flagged in `alive` have each lost 1 for a crash. */
  function Penalized(F: seq<real>, alive: seq<bool>): (r: seq<real>)
    requires |F| == |alive|
    ensures |r| == |F|
    ensures forall i :: 0 <= i < |F| ==> r[i] == F[i] - (if alive[i] then 0.0 else CRASH_PENALTY)
  {
    seq(|F|, i requires 0 <= i < |F| => F[i] - (if alive[i] then 0.0 else CRASH_PENALTY))
  }

  /** The fitness F after, when `bonus` holds, the genomes flagged in `alive` have each gained 5. */
  function Bonused(F: seq<real>, alive: seq<bool>, bonus: bool): (r: seq<real>)
    requires |F| == |alive|
    ensures |r| == |F|
    ensures forall i :: 0 <= i < |F| ==> r[i] == F[i] + (if bonus && alive[i] then PASS_BONUS else 0.0)
    ensures !bonus ==> r == F
  {
    seq(|F|, i requires 0 <= i < |F| => F[i] + (if bonus && alive[i] then PASS_BONUS else 0.0))
  }

  /** The fitness F after every genome has gained the survival reward of one tick. */
  function Rewarded(F: seq<real>): (r: seq<real>)
    ensures |r| == |F| && forall i :: 0 <= i < |F| ==> r[i] == F[i] + SURVIVAL_REWARD
  {
    seq(|F|, i requires 0 <= i < |F| => F[i] + SURVIVAL_REWARD)
  }

  /**
   * After the first k iterations of `for pipe in pipes` over pipes first seen as V with
   * passed flags D: those k pipes have moved once, each is passed when it was, or when
   * some bird was still listed at its iteration and it is left of `leftoverX`, and R
   * records which of them are retired; the rest are untouched; and `add_pipe` is set
   * exactly when one of the k pipes became passed.
   */
  ghost predicate Swept(S: seq<BirdState>, V: seq<PipeView>, D: seq<bool>, collide: (PipeView, BirdState) -> bool,
                        leftoverX: real, width: real, k: nat, W: seq<PipeView>, Q: seq<bool>, addPipe: bool, R: seq<bool>)
    requires |V| > 0
  {
    k <= |V| == |W| == |Q| == |D| && |R| == k &&
    (forall j :: 0 <= j < k ==>
      W[j] == Shifted(V[j]) && R[j] == (V[j].x + width < 0.0) &&
      Q[j] == (D[j] || (Count(Alive(S, V[0], j, collide)) > 0 && V[j].x < leftoverX))) &&
    (forall j :: k <= j < |V| ==> W[j] == V[j] && Q[j] == D[j]) &&
    (addPipe <==> exists j :: 0 <= j < k && Q[j] && !D[j])
  }

  /** One more iteration of the pipe loop, with its passage check and retirement test. */
  lemma SweptStep(S: seq<BirdState>, V: seq<PipeView>, D: seq<bool>, collide: (PipeView, BirdState) -> bool,
                  leftoverX: real, width: real, k: nat, W: seq<PipeView>, Q: seq<bool>, addPipe: bool, R: seq<bool>,
                  newly: bool, retire: bool)
    requires |V| > 0 && k < |V| && Swept(S, V, D, collide, leftoverX, width, k, W, Q, addPipe, R)
    requires newly == (Count(Alive(S, V[0], k, collide)) > 0 && !Q[k] && W[k].x < leftoverX)
    requires retire == (W[k].x + width < 0.0)
    ensures Swept(S, V, D, collide, leftoverX, width, k + 1, W[k := Shifted(W[k])], Q[k := Q[k] || newly],
                  addPipe || newly, R + [retire])
  {
    var W', Q', R' := W[k := Shifted(W[k])], Q[k := Q[k] || newly], R + [retire];
    assert W[k] == V[k] && Q[k] == D[k];
    forall j | 0 <= j < k + 1
      ensures W'[j] == Shifted(V[j]) && R'[j] == (V[j].x + width < 0.0)
      ensures Q'[j] == (D[j] || (Count(Alive(S, V[0], j, collide)) > 0 && V[j].x < leftoverX))
    {
      if j < k {
        assert W'[j] == W[j] && Q'[j] == Q[j] && R'[j] == R[j];
      }
    }
    if newly {
      assert Q'[k] && !D[k];
    } else {
      assert Q'[k] == Q[k];
      assert forall j :: 0 <= j < k + 1 && Q'[j] && !D[j] ==> j < k && Q[j];
    }
  }

  /**
   * The lists after k iterations of `for pipe in pipes` over B, N and G, whose birds are
   * in the states S and whose genomes had fitness F: they hold the birds that missed
   * `pipes[0]`, first seen as `first`, in all k passes, and every popped bird's genome
   * has lost 1.
   */
  ghost predicate Survivors(B: seq<Bird>, N: seq<Net>, G: seq<Genome>, S: seq<BirdState>, F: seq<real>,
                            first: PipeView, k: nat, collide: (PipeView, BirdState) -> bool,
                            bs: seq<Bird>, ns: seq<Net>, gs: seq<Genome>)
    reads B, G
  {
    |B| == |N| == |G| == |S| == |F| && Distinct(G) &&
    (forall i :: 0 <= i < |B| ==> B[i].State() == S[i]) &&
    bs == Keep(B, Alive(S, first, k, collide)) &&
    ns == Keep(N, Alive(S, first, k, collide)) &&
    gs == Keep(G, Alive(S, first, k, collide)) &&
    forall i :: 0 <= i < |G| ==>
      G[i].fitness == F[i] - (if Alive(S, first, k, collide)[i] then 0.0 else CRASH_PENALTY)
  }

  /**
   * The state of `for pipe in pipes` after k iterations over the lists B, N and G (birds
   * in the states S, genomes with fitness F) and the pipes `ps` (first seen as V with
   * passed flags D): the lists hold the birds that missed `pipes[0]` in all k passes,
   * every popped bird's genome has lost 1, the pipes are seen as W with flags Q as
   * `Swept` describes, and `rem` holds the pipes R marks as retired.
   */
  ghost predicate SweepState(B: seq<Bird>, N: seq<Net>, G: seq<Genome>, ps: seq<Pipe>,
                             collide: (PipeView, BirdState) -> bool, leftoverX: real, width: real,
                             S: seq<BirdState>, V: seq<PipeView>, D: seq<bool>, F: seq<real>, k: nat,
                             bs: seq<Bird>, ns: seq<Net>, gs: seq<Genome>,
                             W: seq<PipeView>, Q: seq<bool>, addPipe: bool, R: seq<bool>, rem: seq<Pipe>)
    reads B, G, ps
  {
    |ps| == |V| > 0 && Distinct(ps) &&
    Survivors(B, N, G, S, F, V[0], k, collide, bs, ns, gs) &&
    Swept(S, V, D, collide, leftoverX, width, k, W, Q, addPipe, R) &&
    (forall j :: 0 <= j < |ps| ==> ps[j].View() == W[j] && ps[j].passed == Q[j]) &&
    rem == Keep(ps[..k], R)
  }

  /** Before the first iteration: nobody is popped, no pipe has moved, nothing is collected. */
  lemma SweepStart(B: seq<Bird>, N: seq<Net>, G: seq<Genome>, ps: seq<Pipe>,
                   collide: (PipeView, BirdState) -> bool, leftoverX: real, width: real,
                   S: seq<BirdState>, V: seq<PipeView>, D: seq<bool>, F: seq<real>)
    requires |B| == |N| == |G| == |S| == |F| && Distinct(G)
    requires forall i :: 0 <= i < |B| ==> B[i].State() == S[i] && G[i].fitness == F[i]
    requires |ps| == |V| == |D| && |ps| > 0 && Distinct(ps)
    requires forall k :: 0 <= k < |ps| ==> ps[k].View() == V[k] && ps[k].passed == D[k]
    ensures SweepState(B, N, G, ps, collide, leftoverX, width, S, V, D, F, 0, B, N, G, V, D, false, [], [])
  {
    KeepAll(B, Alive(S, V[0], 0, collide));
    KeepAll(N, Alive(S, V[0], 0, collide));
    KeepAll(G, Alive(S, V[0], 0, collide));
  }

  /** After the last iteration: every pipe has moved, its flag and retirement are final. */
  lemma SweepDone(B: seq<Bird>, N: seq<Net>, G: seq<Genome>, ps: seq<Pipe>,
                  collide: (PipeView, BirdState) -> bool, leftoverX: real, width: real,
                  S: seq<BirdState>, V: seq<PipeView>, D: seq<bool>, F: seq<real>,
                  bs: seq<Bird>, ns: seq<Net>, gs: seq<Genome>,
                  W: seq<PipeView>, Q: seq<bool>, addPipe: bool, R: seq<bool>, rem: seq<Pipe>)
    requires SweepState(B, N, G, ps, collide, leftoverX, width, S, V, D, F, |ps|, bs, ns, gs, W, Q, addPipe, R, rem)
    ensures bs == Keep(B, Alive(S, V[0], |V|, collide))
    ensures ns == Keep(N, Alive(S, V[0], |V|, collide))
    ensures gs == Keep(G, Alive(S, V[0], |V|, collide))
    ensures forall i :: 0 <= i < |G| ==>
              G[i].fitness == F[i] - (if Alive(S, V[0], |V|, collide)[i] then 0.0 else CRASH_PENALTY)
    ensures forall k :: 0 <= k < |ps| ==> ps[k].View() == Shifted(V[k])
    ensures forall k :: 0 <= k < |ps| ==>
              ps[k].passed == (D[k] || (Count(Alive(S, V[0], k, collide)) > 0 && V[k].x < leftoverX))
    ensures addPipe <==> exists k :: 0 <= k < |ps| && ps[k].passed && !D[k]
    ensures forall k :: 0 <= k < |ps| ==> (ps[k] in rem <==> V[k].x + width < 0.0)
    ensures forall r :: r in rem ==> r in ps
    ensures forall i :: 0 <= i < |B| ==> B[i].State() == S[i]
    ensures Distinct(rem)
  {
    assert ps[..|ps|] == ps;
    KeepDistinct(ps, R);
    forall j | 0 <= j < |ps|
      ensures ps[j] in rem <==> R[j]
    {
      KeepIn(ps, R, j);
    }
  }

  /**
   * The newest pipe is never passed while a bird is left: when the last of the pipes V
   * was not passed before the sweep and some bird survives it, either some pipe became
   * passed (so a fresh one is appended), or the last pipe stays unpassed and, lying
   * right of the leftover bird, is not retired.
   */
  lemma LastStaysUnpassed(S: seq<BirdState>, V: seq<PipeView>, D: seq<bool>, collide: (PipeView, BirdState) -> bool,
                          leftoverX: real, width: real)
    requires |V| == |D| > 0 && !D[|V| - 1] && leftoverX >= 0.0 && width >= 0.0
    requires Count(Alive(S, V[0], |V|, collide)) > 0
    ensures (exists k :: 0 <= k < |V| && !D[k] && Count(Alive(S, V[0], k, collide)) > 0 && V[k].x < leftoverX) ||
            (V[|V| - 1].x >= leftoverX && !(V[|V| - 1].x + width < 0.0))
  {
    AliveEarlier(S, V[0], |V| - 1, |V|, collide);
  }

  /** There is a pipe, and the newest one has not been passed. */
  ghost predicate LastUnpassed(ps: seq<Pipe>)
    reads ps
  {
    |ps| > 0 && !ps[|ps| - 1].passed
  }

  /**
   * `gs` and `ns` are the genomes and networks paired with the birds `bs`, position by
   * position, and no bird or genome is listed twice.
   */
  ghost predicate Parallel(bs: seq<Bird>, ns: seq<Net>, gs: seq<Genome>,
                           gOf: map<Bird, Genome>, nOf: map<Bird, Net>)
  {
    (forall b :: b in bs ==> b in gOf && b in nOf) &&
    gs == Lookup(gOf, bs) && ns == Lookup(nOf, bs) &&
    Distinct(bs) && Distinct(gs)
  }

  /**
   * Popping the same indices from the three lists keeps them parallel, and a bird is
   * still listed exactly when its flag is set.
   */
  lemma KeepParallel(bs: seq<Bird>, ns: seq<Net>, gs: seq<Genome>,
                     gOf: map<Bird, Genome>, nOf: map<Bird, Net>, m: seq<bool>)
    requires Parallel(bs, ns, gs, gOf, nOf) && |m| == |bs|
    ensures Parallel(Keep(bs, m), Keep(ns, m), Keep(gs, m), gOf, nOf)
    ensures forall i :: 0 <= i < |bs| ==> (bs[i] in Keep(bs, m) <==> m[i])
  {
    KeepLookup(gOf, bs, m);
    KeepLookup(nOf, bs, m);
    KeepDistinct(bs, m);
    KeepDistinct(gs, m);
    forall i | 0 <= i < |bs|
      ensures bs[i] in Keep(bs, m) <==> m[i]
    {
      KeepIn(bs, m, i);
    }
  }

  /**
   * The pairing the set-up loop builds: each bird with the genome and the network
   * appended beside it. Different birds get different genomes, and every paired bird
   * starts at x = 230 when all of `bs` do.
   */
  lemma Pairing(bs: seq<Bird>, ns: seq<Net>, gs: seq<Genome>) returns (gOf: map<Bird, Genome>, nOf: map<Bird, Net>)
    requires |bs| == |ns| == |gs| && Distinct(bs) && Distinct(gs)
    requires forall i :: 0 <= i < |bs| ==> bs[i].x == BIRD_X
    ensures Parallel(bs, ns, gs, gOf, nOf)
    ensures forall b1, b2 :: b1 in gOf && b2 in gOf && b1 != b2 ==> gOf[b1] != gOf[b2]
    ensures forall b :: b in gOf ==> b.x == BIRD_X
  {
    gOf, nOf := Zip(bs, gs), Zip(bs, ns);
    ZipInjective(bs, gs);
    assert Lookup(nOf, bs) == ns;
    forall b | b in gOf
      ensures b.x == BIRD_X
    {
      var i :| 0 <= i < |bs| && bs[i] == b;
    }
  }

  /** The state of one generation: the lists and counters of `main`. */
  class Generation {
    var birds: seq<Bird>
    var nets: seq<Net>
    var ge: seq<Genome>
    var pipes: seq<Pipe>
    var score: nat
    const base: Base
    const birdHeight: real        // bird.img.get_height()
    const pipeWidth: real         // PIPE_TOP.get_width()
    const pipeImageHeight: real   // PIPE_TOP.get_height()
    ghost const netOf: map<Bird, Net>        // the network created beside each bird
    ghost const genomeOf: map<Bird, Genome>  // the genome appended beside each bird

    /**
     * The parallel lists are aligned: position by position, `ge` and `nets` hold the
     * genome and the network that were appended together with the bird in `birds`.
     */
    ghost predicate Aligned()
      reads this`birds, this`nets, this`ge
    {
      Parallel(birds, nets, ge, genomeOf, netOf) && Registered()
    }

    /** Every bird that was given a genome started at x = 230. */
    ghost predicate Registered() {
      forall b :: b in genomeOf ==> b.x == BIRD_X
    }

    /** No pipe is listed twice, and every pipe's gap is in range with its barriers at its edges. */
    ghost predicate PipesPlaced()
      reads this`pipes, pipes
    {
      Distinct(pipes) &&
      forall p :: p in pipes ==> p.Valid() && p.topImageHeight == pipeImageHeight
    }

    /**
     * While a bird is left there is a pipe, and the newest pipe has not been passed
     * yet, so `pipes[pipe_ind]` at line 245 is always a valid index.
     */
    ghost predicate Newest()
      reads this`birds, this`pipes, pipes
    {
      |birds| > 0 ==> LastUnpassed(pipes)
    }

    /** The image sizes are not negative, and the ground, at 730, covers the screen. */
    ghost predicate Grounded()
      reads base
    {
      0.0 <= pipeWidth && 0.0 <= birdHeight &&
      base.width >= BASE_VEL && base.y == FLOOR_Y && Tiled(base.x1, base.x2, base.width)
    }

    /** The generation invariant. */
    ghost predicate Valid()
      reads this`birds, this`nets, this`ge, this`pipes, pipes, base
    {
      Aligned() && PipesPlaced() && Newest() && Grounded()
    }

    /**
     * The set-up loop of lines 207-212: per genome of the population, a network, a bird
     * at (230, 350), and the genome with its fitness reset to 0.
     */
    static method Hatch(population: seq<Genome>) returns (bs: seq<Bird>, ns: seq<Net>)
      modifies population
      ensures |bs| == |ns| == |population| && Distinct(bs)
      ensures forall i :: 0 <= i < |population| ==>
        fresh(bs[i]) && bs[i].State() == BirdState(BIRD_X, BIRD_Y, 0.0, 0, 0.0, BIRD_Y) &&
        ns[i] == Net(i) && population[i].fitness == 0.0
    {
      bs, ns := [], [];
      var i := 0;
      while i < |population|
        invariant 0 <= i <= |population| && |bs| == |ns| == i
        invariant forall j :: 0 <= j < i ==>
          fresh(bs[j]) && bs[j].State() == BirdState(BIRD_X, BIRD_Y, 0.0, 0, 0.0, BIRD_Y) &&
          ns[j] == Net(j) && population[j].fitness == 0.0
        invariant Distinct(bs)
      {
        ns := ns + [Net(i)];
        var bird := new Bird(BIRD_X, BIRD_Y);
        bs := bs + [bird];
        population[i].fitness := 0.0;
        i := i + 1;
      }
    }

    /**
     * The set-up of `main` (lines 203-219): one bird at (230, 350), one network and
     * one genome with fitness 0 per genome of the population, the ground at 730, one
     * pipe at 600 whose height is `firstHeight`, and score 0. The image sizes are inputs.
     */
    constructor (population: seq<Genome>, firstHeight: int, birdHeight: real, pipeWidth: real,
                 pipeImageHeight: real, baseWidth: real)
      requires Distinct(population)
      requires MIN_HEIGHT <= firstHeight < MAX_HEIGHT
      requires birdHeight >= 0.0 && pipeWidth >= 0.0 && baseWidth >= BASE_VEL
      modifies population
      ensures Valid()
      ensures ge == population && |birds| == |population| && score == 0
      ensures forall i :: 0 <= i < |population| ==>
        fresh(birds[i]) && birds[i].State() == BirdState(BIRD_X, BIRD_Y, 0.0, 0, 0.0, BIRD_Y) &&
        nets[i] == Net(i) && population[i].fitness == 0.0
      ensures |pipes| == 1 && fresh(pipes[0]) && pipes[0].x == SPAWN_X &&
        pipes[0].height == firstHeight as real && !pipes[0].passed
      ensures fresh(base) && base.x1 == 0.0 && base.x2 == baseWidth && base.width == baseWidth && base.y == FLOOR_Y
      ensures this.birdHeight == birdHeight && this.pipeWidth == pipeWidth && this.pipeImageHeight == pipeImageHeight
    {
      var bs, ns := Hatch(population);
      ghost var gOf, nOf := Pairing(bs, ns, population);
      birds, nets, ge := bs, ns, population;
      genomeOf, netOf := gOf, nOf;
      base := new Base(FLOOR_Y, baseWidth);
      var first := new Pipe(SPAWN_X, firstHeight, pipeImageHeight);
      pipes := [first];
      score := 0;
      this.birdHeight := birdHeight;
      this.pipeWidth := pipeWidth;
      this.pipeImageHeight := pipeImageHeight;
    }

    /** One turn of the movement loop (lines 242-247) for the bird, genome and network at one index. */
    static method StepBird(bird: Bird, genome: Genome, net: Net, lead: PipeView,
                           activate: (Net, Observation) -> real)
      modifies bird, genome
      ensures bird.State() == BirdStep(old(bird.State()), net, lead, activate)
      ensures genome.fitness == old(genome.fitness) + SURVIVAL_REWARD
    {
      bird.Move();
      genome.fitness := genome.fitness + SURVIVAL_REWARD;
      var output := activate(net, Observe(bird.State(), lead));
      if Jumps(output) {
        bird.Jump();
      }
    }

    /**
     * The movement loop (lines 241-247): every bird moves, its genome gains 0.1, and it
     * jumps when its own network, shown the lead pipe, answers above 0.5.
     */
    method MoveBirds(lead: PipeView, activate: (Net, Observation) -> real)
      requires |birds| == |nets| == |ge| && Distinct(birds) && Distinct(ge)
      modifies birds, ge
      ensures States(birds) == Flown(old(States(birds)), nets, lead, activate)
      ensures Fitness(ge) == Rewarded(old(Fitness(ge)))
      ensures Views(pipes) == old(Views(pipes)) && Flags(pipes) == old(Flags(pipes))
    {
      var bs, ns, gs := birds, nets, ge;
      ghost var ps, S0, F0 := pipes, States(bs), Fitness(gs);
      ghost var V0, D0 := Views(ps), Flags(ps);
      var x := 0;
      while x < |bs|
        invariant 0 <= x <= |bs|
        invariant Views(ps) == V0 && Flags(ps) == D0
        invariant forall j :: 0 <= j < x ==> bs[j].State() == BirdStep(S0[j], ns[j], lead, activate)
        invariant forall j :: x <= j < |bs| ==> bs[j].State() == S0[j]
        invariant forall j :: 0 <= j < x ==> gs[j].fitness == F0[j] + SURVIVAL_REWARD
        invariant forall j :: x <= j < |gs| ==> gs[j].fitness == F0[j]
      {
        StepBird(bs[x], gs[x], ns[x], lead, activate);
        x := x + 1;
      }
      assert forall j :: 0 <= j < |bs| ==> States(bs)[j] == Flown(S0, ns, lead, activate)[j];
      assert forall j :: 0 <= j < |gs| ==> Fitness(gs)[j] == Rewarded(F0)[j];
    }

    /**
     * One iteration of the collision test of lines 253-257, at index x of a walk down
     * the lists that started as B, N and G: a bird that collides with the pipe seen as
     * `p` costs its genome 1 and is popped from the three lists at x.
     */
    static method CrashStep(bs: seq<Bird>, ns: seq<Net>, gs: seq<Genome>, x: nat, p: PipeView,
                            collide: (PipeView, BirdState) -> bool, ghost B: seq<Bird>, ghost N: seq<Net>,
                            ghost G: seq<Genome>, ghost m: seq<bool>)
      returns (bs': seq<Bird>, ns': seq<Net>, gs': seq<Genome>)
      requires |B| == |N| == |G| == |m| && x < |B|
      requires m[x] == !collide(p, B[x].State())
      requires bs == B[..x + 1] + Keep(B[x + 1..], m[x + 1..])
      requires ns == N[..x + 1] + Keep(N[x + 1..], m[x + 1..])
      requires gs == G[..x + 1] + Keep(G[x + 1..], m[x + 1..])
      modifies G[x]
      ensures bs' == B[..x] + Keep(B[x..], m[x..])
      ensures ns' == N[..x] + Keep(N[x..], m[x..])
      ensures gs' == G[..x] + Keep(G[x..], m[x..])
      ensures G[x].fitness == old(G[x].fitness) - (if m[x] then 0.0 else CRASH_PENALTY)
    {
      PopDownStep(bs, B, m, x);
      PopDownStep(ns, N, m, x);
      PopDownStep(gs, G, m, x);
      bs', ns', gs' := bs, ns, gs;
      if collide(p, bs[x].State()) {
        gs[x].fitness := gs[x].fitness - CRASH_PENALTY;
        bs' := bs[..x] + bs[x + 1..];
        ns' := ns[..x] + ns[x + 1..];
        gs' := gs[..x] + gs[x + 1..];
      }
    }

    /**
     * The inner loop of lines 252-261 for one `pipe`, on the lists B, N and G whose birds
     * are in the states S: walking the indices from the last to the first, a bird that
     * collides with the first pipe, seen as `p`, costs its genome 1 and is popped from all
     * three lists at its index; and on every step `pipe` is marked passed when it is not
     * yet and is left of `leftoverX`, the x of the `bird` left over from the movement loop.
     */
    static method CollideWith(B: seq<Bird>, N: seq<Net>, G: seq<Genome>, ghost S: seq<BirdState>,
                              pipe: Pipe, p: PipeView, collide: (PipeView, BirdState) -> bool, leftoverX: real)
      returns (bs: seq<Bird>, ns: seq<Net>, gs: seq<Genome>, newlyPassed: bool)
      requires |B| == |N| == |G| == |S| && Distinct(G)
      requires forall i :: 0 <= i < |B| ==> B[i].State() == S[i]
      modifies G, pipe
      ensures bs == Keep(B, Misses(S, p, collide))
      ensures ns == Keep(N, Misses(S, p, collide))
      ensures gs == Keep(G, Misses(S, p, collide))
      ensures forall i :: 0 <= i < |G| ==>
                G[i].fitness == old(G[i].fitness) - (if collide(p, S[i]) then CRASH_PENALTY else 0.0)
      ensures pipe.View() == old(pipe.View())
      ensures newlyPassed == (|B| > 0 && !old(pipe.passed) && pipe.x < leftoverX)
      ensures pipe.passed == (old(pipe.passed) || newlyPassed)
    {
      bs, ns, gs := B, N, G;
      ghost var F0 := Fitness(G);
      ghost var view0, passed0 := pipe.View(), pipe.passed;
      newlyPassed := false;
      var x := |bs|;
      assert B[..x] == B && N[..x] == N && G[..x] == G;
      while x > 0
        invariant Crashing(B, N, G, S, F0, pipe, p, collide, leftoverX, view0, passed0, x, bs, ns, gs, newlyPassed)
      {
        bs, ns, gs, newlyPassed :=
          CrashIteration(B, N, G, S, F0, pipe, p, collide, leftoverX, view0, passed0, x, bs, ns, gs, newlyPassed);
        x := x - 1;
      }
      ghost var m := Misses(S, p, collide);
      PopDownDone(bs, B, m);
      PopDownDone(ns, N, m);
      PopDownDone(gs, G, m);
    }

    /**
     * The state of the inner loop of lines 252-261 once the indices from x up have been
     * walked: the lists are B, N and G with the colliding birds from x up popped, those
     * birds' genomes have lost 1 of the fitness F0 they started with, and the pipe, first
     * seen as `view0` with flag `passed0`, is unmoved and passed once a step has run with
     * it left of `leftoverX`.
     */
    static ghost predicate Crashing(B: seq<Bird>, N: seq<Net>, G: seq<Genome>, S: seq<BirdState>, F0: seq<real>,
                                    pipe: Pipe, p: PipeView, collide: (PipeView, BirdState) -> bool, leftoverX: real,
                                    view0: PipeView, passed0: bool, x: nat,
                                    bs: seq<Bird>, ns: seq<Net>, gs: seq<Genome>, newlyPassed: bool)
      reads B, G, pipe
    {
      |B| == |N| == |G| == |S| == |F0| && x <= |B| && Distinct(G) &&
      (forall i :: 0 <= i < |B| ==> B[i].State() == S[i]) &&
      bs == B[..x] + Keep(B[x..], Misses(S, p, collide)[x..]) &&
      ns == N[..x] + Keep(N[x..], Misses(S, p, collide)[x..]) &&
      gs == G[..x] + Keep(G[x..], Misses(S, p, collide)[x..]) &&
      (forall i :: 0 <= i < |G| ==>
         G[i].fitness == F0[i] - (if x <= i && collide(p, S[i]) then CRASH_PENALTY else 0.0)) &&
      pipe.View() == view0 &&
      newlyPassed == (x < |B| && !passed0 && view0.x < leftoverX) &&
      pipe.passed == (passed0 || newlyPassed)
    }

    /** One step down the indices of the inner loop of lines 252-261. */
    static method CrashIteration(B: seq<Bird>, N: seq<Net>, G: seq<Genome>, ghost S: seq<BirdState>, ghost F0: seq<real>,
                                 pipe: Pipe, p: PipeView, collide: (PipeView, BirdState) -> bool, leftoverX: real,
                                 ghost view0: PipeView, ghost passed0: bool, x: nat,
                                 bs: seq<Bird>, ns: seq<Net>, gs: seq<Genome>, newlyPassed: bool)
      returns (bs': seq<Bird>, ns': seq<Net>, gs': seq<Genome>, newlyPassed': bool)
      requires x > 0
      requires Crashing(B, N, G, S, F0, pipe, p, collide, leftoverX, view0, passed0, x, bs, ns, gs, newlyPassed)
      modifies G[x - 1], pipe
      ensures Crashing(B, N, G, S, F0, pipe, p, collide, leftoverX, view0, passed0, x - 1, bs', ns', gs', newlyPassed')
    {
      bs', ns', gs' := CrashStep(bs, ns, gs, x - 1, p, collide, B, N, G, Misses(S, p, collide));
      var newly := pipe.CheckPassed(leftoverX);
      newlyPassed' := newlyPassed || newly;
    }

    /**
     * The inner loop of iteration k of `for pipe in pipes` (lines 252-261), on lists that
     * are the first k iterations' survivors among B, N and G: the pass against
     * `pipes[0]`, seen as `p`, and the passage check of `pipe`, which happens only while
     * some bird is listed.
     */
    static method PassBirds(bs: seq<Bird>, ns: seq<Net>, gs: seq<Genome>, ghost B: seq<Bird>, ghost N: seq<Net>,
                            ghost G: seq<Genome>, ghost S: seq<BirdState>, ghost P0: PipeView, ghost k: nat,
                            pipe: Pipe, p: PipeView, collide: (PipeView, BirdState) -> bool, leftoverX: real,
                            ghost passed0: bool, ghost px: real, ghost F: seq<real>)
      returns (bs': seq<Bird>, ns': seq<Net>, gs': seq<Genome>, newly: bool)
      requires pipe.passed == passed0 && pipe.x == px
      requires Survivors(B, N, G, S, F, P0, k, collide, bs, ns, gs)
      requires p == CollisionView(P0, k)
      modifies gs, pipe
      ensures Survivors(B, N, G, S, F, P0, k + 1, collide, bs', ns', gs')
      ensures pipe.View() == old(pipe.View())
      ensures newly == (|bs| > 0 && !passed0 && px < leftoverX)
      ensures pipe.passed == (passed0 || newly)
    {
      ghost var a := Alive(S, P0, k, collide);
      KeepStates(B, S, a);
      KeepDistinct(G, a);
      bs', ns', gs', newly := CollideWith(bs, ns, gs, Keep(S, a), pipe, p, collide, leftoverX);
      AlivePass(B, S, P0, k, collide);
      AlivePass(N, S, P0, k, collide);
      AlivePass(G, S, P0, k, collide);
      ghost var a2 := Alive(S, P0, k + 1, collide);
      assert a2 == And(a, Misses(S, p, collide));
      forall i | 0 <= i < |G|
        ensures G[i].fitness == F[i] - (if a2[i] then 0.0 else CRASH_PENALTY)
      {
        if a[i] {
          var r := KeepPair(G, S, a, i);
        } else {
          KeepIn(G, a, i);
        }
      }
    }

    /**
     * Iteration k of `for pipe in pipes` (lines 252-265) on pipes `ps` seen as W with
     * passed flags Q: the inner loop, then the retirement test of `ps[k]` for an image
     * `width` wide, and its move; no other pipe changes.
     */
    static method SweepStep(bs: seq<Bird>, ns: seq<Net>, gs: seq<Genome>, ghost B: seq<Bird>, ghost N: seq<Net>,
                            ghost G: seq<Genome>, ghost S: seq<BirdState>, ghost P0: PipeView, k: nat,
                            ps: seq<Pipe>, ghost W: seq<PipeView>, ghost Q: seq<bool>, p: PipeView,
                            collide: (PipeView, BirdState) -> bool, leftoverX: real, width: real,
                            ghost F: seq<real>)
      returns (bs': seq<Bird>, ns': seq<Net>, gs': seq<Genome>, newly: bool, retire: bool)
      requires Survivors(B, N, G, S, F, P0, k, collide, bs, ns, gs)
      requires p == CollisionView(P0, k)
      requires k < |ps| == |W| == |Q| && Distinct(ps)
      requires forall j :: 0 <= j < |ps| ==> ps[j].View() == W[j] && ps[j].passed == Q[j]
      modifies gs, ps[k]
      ensures Survivors(B, N, G, S, F, P0, k + 1, collide, bs', ns', gs')
      ensures newly == (Count(Alive(S, P0, k, collide)) > 0 && !Q[k] && W[k].x < leftoverX)
      ensures retire == (W[k].x + width < 0.0)
      ensures forall j :: 0 <= j < |ps| ==>
                ps[j].View() == W[k := Shifted(W[k])][j] && ps[j].passed == Q[k := Q[k] || newly][j]
    {
      var pipe := ps[k];
      bs', ns', gs', newly := PassBirds(bs, ns, gs, B, N, G, S, P0, k, pipe, p, collide, leftoverX, pipe.passed, pipe.x, F);
      retire := pipe.x + width < 0.0;
      pipe.Move();
    }

    /** Iteration k of `for pipe in pipes` (lines 252-265), from one `SweepState` to the next. */
    static method SweepIteration(B: seq<Bird>, N: seq<Net>, G: seq<Genome>, ps: seq<Pipe>,
                                 collide: (PipeView, BirdState) -> bool, leftoverX: real, width: real,
                                 ghost S: seq<BirdState>, ghost V: seq<PipeView>, ghost D: seq<bool>,
                                 ghost F: seq<real>, k: nat, bs: seq<Bird>, ns: seq<Net>, gs: seq<Genome>,
                                 ghost W: seq<PipeView>, ghost Q: seq<bool>, addPipe: bool, ghost R: seq<bool>,
                                 rem: seq<Pipe>)
      returns (bs': seq<Bird>, ns': seq<Net>, gs': seq<Genome>, ghost W': seq<PipeView>, ghost Q': seq<bool>,
               addPipe': bool, ghost R': seq<bool>, rem': seq<Pipe>)
      requires k < |ps|
      requires SweepState(B, N, G, ps, collide, leftoverX, width, S, V, D, F, k, bs, ns, gs, W, Q, addPipe, R, rem)
      modifies G, ps
      ensures SweepState(B, N, G, ps, collide, leftoverX, width, S, V, D, F, k + 1, bs', ns', gs', W', Q', addPipe', R', rem')
    {
      KeepDistinct(G, Alive(S, V[0], k, collide));
      assert forall i :: 0 <= i < |gs| ==> gs[i] in G;
      var newly, retire;
      bs', ns', gs', newly, retire := SweepStep(bs, ns, gs, B, N, G, S, V[0], k, ps, W, Q, ps[0].View(), collide, leftoverX, width, F);
      SweptStep(S, V, D, collide, leftoverX, width, k, W, Q, addPipe, R, newly, retire);
      W', Q' := W[k := Shifted(W[k])], Q[k := Q[k] || newly];
      addPipe' := addPipe || newly;
      assert ps[..k + 1] == ps[..k] + [ps[k]];
      KeepAppend(ps[..k], R, ps[k], retire);
      R' := R + [retire];
      rem' := if retire then rem + [ps[k]] else rem;
    }

    /**
     * `for pipe in pipes` (lines 251-266) on the lists B, N and G, whose birds are in the
     * states S and whose genomes have fitness F, and on the pipes `ps`, seen as V with
     * passed flags D, for a pipe image `width` wide: each iteration pops the birds
     * colliding with `pipes[0]`, checks the passage of `pipe`, collects `pipe` for
     * retirement when its right edge is left of the screen (tested before its move),
     * and moves it.
     */
    static method Sweep(B: seq<Bird>, N: seq<Net>, G: seq<Genome>, ps: seq<Pipe>, collide: (PipeView, BirdState) -> bool,
                        leftoverX: real, width: real, ghost S: seq<BirdState>, ghost V: seq<PipeView>,
                        ghost D: seq<bool>, ghost F: seq<real>)
      returns (bs: seq<Bird>, ns: seq<Net>, gs: seq<Genome>, addPipe: bool, rem: seq<Pipe>)
      requires |B| == |N| == |G| == |S| == |F| && Distinct(G)
      requires forall i :: 0 <= i < |B| ==> B[i].State() == S[i] && G[i].fitness == F[i]
      requires |ps| == |V| == |D| && |ps| > 0 && Distinct(ps)
      requires forall k :: 0 <= k < |ps| ==> ps[k].View() == V[k] && ps[k].passed == D[k]
      modifies G, ps
      ensures bs == Keep(B, Alive(S, V[0], |V|, collide))
      ensures ns == Keep(N, Alive(S, V[0], |V|, collide))
      ensures gs == Keep(G, Alive(S, V[0], |V|, collide))
      ensures forall i :: 0 <= i < |G| ==>
                G[i].fitness == F[i] - (if Alive(S, V[0], |V|, collide)[i] then 0.0 else CRASH_PENALTY)
      ensures forall k :: 0 <= k < |ps| ==> ps[k].View() == Shifted(V[k])
      ensures forall k :: 0 <= k < |ps| ==>
                ps[k].passed == (D[k] || (Count(Alive(S, V[0], k, collide)) > 0 && V[k].x < leftoverX))
      ensures addPipe <==> exists k :: 0 <= k < |ps| && ps[k].passed && !D[k]
      ensures forall k :: 0 <= k < |ps| ==> (ps[k] in rem <==> V[k].x + width < 0.0)
      ensures forall r :: r in rem ==> r in ps
      ensures Distinct(rem)
      ensures forall i :: 0 <= i < |B| ==> B[i].State() == S[i]
    {
      bs, ns, gs := B, N, G;
      ghost var R: seq<bool> := [];
      ghost var W, Q := V, D;
      addPipe := false;
      rem := [];
      SweepStart(B, N, G, ps, collide, leftoverX, width, S, V, D, F);
      var k := 0;
      while k < |ps|
        invariant 0 <= k <= |ps|
        invariant SweepState(B, N, G, ps, collide, leftoverX, width, S, V, D, F, k, bs, ns, gs, W, Q, addPipe, R, rem)
      {
        bs, ns, gs, W, Q, addPipe, R, rem :=
          SweepIteration(B, N, G, ps, collide, leftoverX, width, S, V, D, F, k, bs, ns, gs, W, Q, addPipe, R, rem);
        k := k + 1;
      }
      SweepDone(B, N, G, ps, collide, leftoverX, width, S, V, D, F, bs, ns, gs, W, Q, addPipe, R, rem);
    }

    /**
     * Lines 270-271: every genome still in `ge`, the genomes of G that `alive` flags,
     * gains 5; the other genomes of G keep their fitness.
     */
    method Bonus(ghost G: seq<Genome>, ghost alive: seq<bool>)
      requires |G| == |alive| && Distinct(G) && ge == Keep(G, alive)
      modifies G
      ensures Fitness(G) == Bonused(old(Fitness(G)), alive, true)
      ensures birds == old(birds) && nets == old(nets) && ge == old(ge) && pipes == old(pipes) && score == old(score)
      ensures States(birds) == old(States(birds))
      ensures Views(pipes) == old(Views(pipes)) && Flags(pipes) == old(Flags(pipes))
      ensures old(PipesPlaced()) ==> PipesPlaced()
    {
      ghost var F0 := Fitness(G);
      KeepDistinct(G, alive);
      KeepSubset(G, alive);
      var gs := ge;
      var i := 0;
      while i < |gs|
        invariant 0 <= i <= |gs|
        invariant forall j :: 0 <= j < i ==> gs[j].fitness == old(gs[j].fitness) + PASS_BONUS
        invariant forall j :: i <= j < |gs| ==> gs[j].fitness == old(gs[j].fitness)
        invariant forall j :: 0 <= j < |G| && G[j] !in gs ==> G[j].fitness == old(G[j].fitness)
      {
        assert gs[i] in G;
        gs[i].fitness := gs[i].fitness + PASS_BONUS;
        i := i + 1;
      }
      forall i | 0 <= i < |G|
        ensures G[i].fitness == F0[i] + (if alive[i] then PASS_BONUS else 0.0)
      {
        if alive[i] {
          var r := KeepPair(G, G, alive, i);
        } else {
          KeepIn(G, alive, i);
        }
      }
      BonusedSpec(G, F0, alive, true);
    }

    /** A bonus given genome by genome, restated as whole lists. */
    static lemma BonusedSpec(G: seq<Genome>, F: seq<real>, alive: seq<bool>, bonus: bool)
      requires |G| == |F| == |alive|
      requires forall i :: 0 <= i < |G| ==> G[i].fitness == F[i] + (if bonus && alive[i] then PASS_BONUS else 0.0)
      ensures Fitness(G) == Bonused(F, alive, bonus)
    {
    }

    /**
     * Lines 268-272, when a pipe was passed: the score goes up by one, every genome
     * still in `ge` gains 5, and a new pipe is appended at 600 with height `newHeight`.
     */
    method Reward(newHeight: int, ghost G: seq<Genome>, ghost alive: seq<bool>)
      requires MIN_HEIGHT <= newHeight < MAX_HEIGHT && PipesPlaced()
      requires |G| == |alive| && Distinct(G) && ge == Keep(G, alive)
      modifies this`score, this`pipes, G
      ensures PipesPlaced()
      ensures score == old(score) + 1
      ensures Fitness(G) == Bonused(old(Fitness(G)), alive, true)
      ensures |pipes| == |old(pipes)| + 1 && pipes[..|old(pipes)|] == old(pipes)
      ensures Views(old(pipes)) == old(Views(pipes)) && Flags(old(pipes)) == old(Flags(pipes))
      ensures birds == old(birds) && nets == old(nets) && ge == old(ge)
      ensures States(birds) == old(States(birds))
      ensures var p := pipes[|pipes| - 1];
        fresh(p) && p.Valid() && p.x == SPAWN_X && p.height == newHeight as real && !p.passed &&
        p.topImageHeight == pipeImageHeight
    {
      score := score + 1;
      Bonus(G, alive);
      assert PipesPlaced() && Views(old(pipes)) == old(Views(pipes)) && Flags(old(pipes)) == old(Flags(pipes));
      Spawn(newHeight, G);
    }

    /** Line 272: `pipes.append(Pipe(600))`, the new pipe with its gap at `newHeight`. */
    method Spawn(newHeight: int, ghost G: seq<Genome>)
      requires MIN_HEIGHT <= newHeight < MAX_HEIGHT && PipesPlaced()
      modifies this`pipes
      ensures PipesPlaced()
      ensures |pipes| == |old(pipes)| + 1 && pipes[..|old(pipes)|] == old(pipes)
      ensures Views(old(pipes)) == old(Views(pipes)) && Flags(old(pipes)) == old(Flags(pipes))
      ensures birds == old(birds) && nets == old(nets) && ge == old(ge) && score == old(score)
      ensures States(birds) == old(States(birds)) && Fitness(G) == old(Fitness(G))
      ensures var p := pipes[|pipes| - 1];
        fresh(p) && p.Valid() && p.x == SPAWN_X && p.height == newHeight as real && !p.passed &&
        p.topImageHeight == pipeImageHeight
    {
      var p := new Pipe(SPAWN_X, newHeight, pipeImageHeight);
      assert p !in pipes;
      pipes := pipes + [p];
    }

    /** Lines 274-275: `pipes.remove(r)` for every pipe collected in `rem`. */
    method RetirePipes(rem: seq<Pipe>, ghost G: seq<Genome>)
      requires forall r :: r in rem ==> r in pipes
      requires PipesPlaced() && Distinct(rem)
      modifies this`pipes
      ensures PipesPlaced()
      ensures pipes == Keep(old(pipes), Absent(old(pipes), rem))
      ensures Views(old(pipes)) == old(Views(pipes)) && Flags(old(pipes)) == old(Flags(pipes))
      ensures Fitness(G) == old(Fitness(G)) && States(birds) == old(States(birds))
      ensures birds == old(birds) && nets == old(nets) && ge == old(ge) && score == old(score)
    {
      var ps := pipes;
      ghost var P := pipes;
      KeepAll(P, Absent(P, rem[..0]));
      var j := 0;
      while j < |rem|
        invariant 0 <= j <= |rem|
        invariant ps == Keep(P, Absent(P, rem[..j]))
      {
        AbsentStep(P, rem, j);
        ps := RemoveFirst(ps, rem[j]);
        j := j + 1;
      }
      assert rem[..j] == rem;
      KeepDistinct(P, Absent(P, rem));
      pipes := ps;
    }

    /**
     * One step of `for x, bird in enumerate(birds)` in lines 277-281, where the lists are
     * the part of B, N and G before index j, filtered by M, followed by the rest, and x
     * points at `B[j]`: an out-of-bounds bird is popped from all three lists, and the bird
     * that slides into its slot is skipped.
     */
    static method CullStep(bs: seq<Bird>, ns: seq<Net>, gs: seq<Genome>, x: nat, birdHeight: real,
                           ghost B: seq<Bird>, ghost N: seq<Net>, ghost G: seq<Genome>, ghost bad: seq<bool>,
                           ghost M: seq<bool>, ghost j: nat)
      returns (bs': seq<Bird>, ns': seq<Net>, gs': seq<Genome>, ghost M': seq<bool>, ghost j': nat)
      requires |B| == |N| == |G| == |bad| && |M| == j < |B|
      requires bad[j] == (B[j].y < 0.0 || B[j].y + birdHeight >= FLOOR_Y)
      requires bs == Keep(B[..j], M) + B[j..]
      requires ns == Keep(N[..j], M) + N[j..]
      requires gs == Keep(G[..j], M) + G[j..]
      requires x == |Keep(B[..j], M)|
      ensures j < j' <= |B| && |M'| == j'
      ensures M + EnumeratePopKeep(bad[j..]) == M' + EnumeratePopKeep(bad[j'..])
      ensures bs' == Keep(B[..j'], M') + B[j'..]
      ensures ns' == Keep(N[..j'], M') + N[j'..]
      ensures gs' == Keep(G[..j'], M') + G[j'..]
      ensures j' < |B| ==> x + 1 == |Keep(B[..j'], M')|
      ensures j' == |B| ==> x + 1 >= |bs'|
    {
      EnumerateKeepStep(bs, B, M, j, x);
      EnumerateKeepStep(ns, N, M, j, x);
      EnumerateKeepStep(gs, G, M, j, x);
      M', j' := EnumeratePopKeepNext(bad, M, j);
      if bs[x].y < 0.0 || bs[x].y + birdHeight >= FLOOR_Y {
        if j + 1 < |B| {
          EnumeratePopSkip(bs, B, M, j, x);
          EnumeratePopSkip(ns, N, M, j, x);
          EnumeratePopSkip(gs, G, M, j, x);
        } else {
          EnumeratePop(bs, B, M, j, x);
          EnumeratePop(ns, N, M, j, x);
          EnumeratePop(gs, G, M, j, x);
        }
        bs' := bs[..x] + bs[x + 1..];
        ns' := ns[..x] + ns[x + 1..];
        gs' := gs[..x] + gs[x + 1..];
      } else {
        bs', ns', gs' := bs, ns, gs;
      }
    }

    /**
     * Lines 277-281 on the lists B, N and G whose birds are in the states S: every bird
     * above the screen or touching the ground is popped from all three lists, by `pop(x)`
     * while enumerating, so the bird after each popped one is not examined in this tick.
     */
    static method CullOutOfBounds(B: seq<Bird>, N: seq<Net>, G: seq<Genome>, ghost S: seq<BirdState>, birdHeight: real)
      returns (bs: seq<Bird>, ns: seq<Net>, gs: seq<Genome>)
      requires |B| == |N| == |G| == |S|
      requires forall i :: 0 <= i < |B| ==> B[i].State() == S[i]
      ensures bs == Keep(B, EnumeratePopKeep(OutOfBounds(S, birdHeight)))
      ensures ns == Keep(N, EnumeratePopKeep(OutOfBounds(S, birdHeight)))
      ensures gs == Keep(G, EnumeratePopKeep(OutOfBounds(S, birdHeight)))
    {
      bs, ns, gs := B, N, G;
      ghost var bad := OutOfBounds(S, birdHeight);
      ghost var M: seq<bool> := [];
      ghost var j: nat := 0;
      assert B[..0] == [] && N[..0] == [] && G[..0] == [] && bad[0..] == bad;
      var x := 0;
      while x < |bs|
        invariant j <= |B| && |M| == j
        invariant EnumeratePopKeep(bad) == M + EnumeratePopKeep(bad[j..])
        invariant bs == Keep(B[..j], M) + B[j..]
        invariant ns == Keep(N[..j], M) + N[j..]
        invariant gs == Keep(G[..j], M) + G[j..]
        invariant j < |B| ==> x == |Keep(B[..j], M)|
        invariant j == |B| ==> x >= |bs|
        decreases |B| - j
      {
        bs, ns, gs, M, j := CullStep(bs, ns, gs, x, birdHeight, B, N, G, bad, M, j);
        x := x + 1;
      }
      assert |bs| == |Keep(B[..j], M)| + (|B| - j);
      assert j == |B|;
      assert B[..j] == B && N[..j] == N && G[..j] == G && bad[j..] == [];
      assert M == EnumeratePopKeep(bad);
    }

    /**
     * Stores the lists of a step into the generation. Nothing else changes: in particular
     * the genomes G and the pipes P keep their fitness, position and flags.
     */
    method Commit(bs: seq<Bird>, ns: seq<Net>, gs: seq<Genome>, ps: seq<Pipe>, ghost B: seq<Bird>, ghost G: seq<Genome>,
                  ghost P: seq<Pipe>)
      requires Parallel(bs, ns, gs, genomeOf, netOf) && Registered()
      modifies this`birds, this`nets, this`ge, this`pipes
      ensures birds == bs && nets == ns && ge == gs && pipes == ps && score == old(score) && Aligned()
      ensures States(B) == old(States(B)) && Fitness(G) == old(Fitness(G)) && Views(P) == old(Views(P)) && Flags(P) == old(Flags(P))
      ensures old(Distinct(ps) && forall q :: q in ps ==> q.Valid() && q.topImageHeight == pipeImageHeight) ==>
                PipesPlaced()
      ensures old(LastUnpassed(ps)) ==> LastUnpassed(ps)
    {
      birds, nets, ge, pipes := bs, ns, gs, ps;
    }

    /**
     * `for pipe in pipes` (lines 250-266) on the generation, after the movement loop, with
     * the x of the leftover `bird`, for birds in the states S, pipes seen as V with passed
     * flags D and genomes with fitness F: the lists keep exactly the birds `Alive` flags,
     * the popped birds' genomes lose 1, every pipe moves once, passed flags are set as
     * `PassedAfter` states, `add_pipe` says whether one was set, and `rem` collects
     * exactly the pipes that were off screen. The lists stay aligned and the pipes well
     * placed, and while a bird survives, either some pipe became passed or the newest
     * pipe is still unpassed and not retired.
     */
    method SweepPipes(collide: (PipeView, BirdState) -> bool, leftoverX: real, ghost S: seq<BirdState>,
                      ghost V: seq<PipeView>, ghost D: seq<bool>, ghost F: seq<real>)
      returns (addPipe: bool, rem: seq<Pipe>, ghost alive: seq<bool>)
      requires Aligned() && PipesPlaced() && Newest() && 0.0 <= pipeWidth && |birds| > 0 && leftoverX >= 0.0
      requires S == States(birds) && V == Views(pipes) && D == Flags(pipes) && F == Fitness(ge)
      modifies this`birds, this`nets, this`ge, this`pipes, ge, pipes
      ensures Aligned() && PipesPlaced() && pipes == old(pipes) && score == old(score)
      ensures alive == Alive(S, V[0], |V|, collide) && |alive| == |old(ge)|
      ensures States(old(birds)) == S
      ensures birds == Keep(old(birds), alive) && nets == Keep(old(nets), alive) && ge == Keep(old(ge), alive)
      ensures Fitness(old(ge)) == Penalized(F, alive)
      ensures Views(pipes) == ShiftedAll(V) && Flags(pipes) == PassedAfter(S, V, D, collide, leftoverX)
      ensures addPipe <==> SomeNewlyPassed(D, Flags(pipes))
      ensures Absent(pipes, rem) == Onscreen(V, pipeWidth)
      ensures |birds| > 0 ==> addPipe || (!Flags(old(pipes))[|old(pipes)| - 1] && old(pipes)[|old(pipes)| - 1] !in rem)
      ensures forall r :: r in rem ==> r in pipes
      ensures Distinct(rem)
    {
      var B, N, G, P := birds, nets, ge, pipes;
      ghost var sc := score;
      ghost var Go: seq<object>, Po: seq<object> := G, P;
      assert this !in Go && this !in Po;
      var bs, ns, gs;
      bs, ns, gs, addPipe, rem, alive :=
        SweepPlaced(B, N, G, P, collide, leftoverX, pipeWidth, pipeImageHeight, S, V, D, F);
      assert score == sc;
      KeepParallel(B, N, G, genomeOf, netOf, alive);
      Commit(bs, ns, gs, P, B, G, P);
      assert pipes == P && birds == bs;
      assert |bs| > 0 ==> addPipe || (!Flags(P)[|P| - 1] && P[|P| - 1] !in rem);
    }

    /** `Sweep`'s element-wise outcome, restated as whole lists. */
    static lemma SweptSpec(B: seq<Bird>, G: seq<Genome>, P: seq<Pipe>, S: seq<BirdState>, V: seq<PipeView>,
                           D: seq<bool>, F: seq<real>, collide: (PipeView, BirdState) -> bool, leftoverX: real,
                           alive: seq<bool>)
      requires |B| == |S| && forall i :: 0 <= i < |B| ==> B[i].State() == S[i]
      requires |G| == |F| == |alive| && |P| == |V| == |D| > 0
      requires forall i :: 0 <= i < |G| ==> G[i].fitness == F[i] - (if alive[i] then 0.0 else CRASH_PENALTY)
      requires forall k :: 0 <= k < |P| ==> P[k].View() == Shifted(V[k])
      requires forall k :: 0 <= k < |P| ==>
                 P[k].passed == (D[k] || (Count(Alive(S, V[0], k, collide)) > 0 && V[k].x < leftoverX))
      ensures Fitness(G) == Penalized(F, alive)
      ensures Views(P) == ShiftedAll(V) && Flags(P) == PassedAfter(S, V, D, collide, leftoverX)
      ensures States(B) == S
    {
    }

    /**
     * The sweep of lines 250-266 over well-placed pipes P, seen as V with passed flags D,
     * whose newest is unpassed, on birds in the states S whose genomes have fitness F:
     * `Sweep`'s outcome, with the flags of the surviving birds as `alive`. The pipes stay
     * well placed, and while a bird survives, either some pipe became passed or the
     * newest pipe is still unpassed and not retired.
     */
    static method SweepPlaced(B: seq<Bird>, N: seq<Net>, G: seq<Genome>, P: seq<Pipe>,
                              collide: (PipeView, BirdState) -> bool, leftoverX: real, width: real,
                              imageHeight: real, ghost S: seq<BirdState>, ghost V: seq<PipeView>,
                              ghost D: seq<bool>, ghost F: seq<real>)
      returns (bs: seq<Bird>, ns: seq<Net>, gs: seq<Genome>, addPipe: bool, rem: seq<Pipe>, ghost alive: seq<bool>)
      requires |B| == |N| == |G| && Distinct(G) && Distinct(P) && 0.0 <= width && leftoverX >= 0.0
      requires |P| > 0 && !P[|P| - 1].passed
      requires forall q :: q in P ==> q.Valid() && q.topImageHeight == imageHeight
      requires S == States(B) && V == Views(P) && D == Flags(P) && F == Fitness(G)
      modifies G, P
      ensures alive == Alive(S, V[0], |V|, collide)
      ensures bs == Keep(B, alive) && ns == Keep(N, alive) && gs == Keep(G, alive)
      ensures Fitness(G) == Penalized(F, alive)
      ensures Views(P) == ShiftedAll(V) && Flags(P) == PassedAfter(S, V, D, collide, leftoverX)
      ensures addPipe <==> SomeNewlyPassed(D, Flags(P))
      ensures Absent(P, rem) == Onscreen(V, width)
      ensures forall r :: r in rem ==> r in P
      ensures Distinct(rem)
      ensures forall q :: q in P ==> q.Valid() && q.topImageHeight == imageHeight
      ensures |bs| > 0 ==> addPipe || (!Flags(P)[|P| - 1] && P[|P| - 1] !in rem)
      ensures States(B) == S
    {
      forall k | 0 <= k < |P|
        ensures WellPlaced(V[k], P[k].topImageHeight) && P[k].topImageHeight == imageHeight
      {
        assert P[k] in P;
      }
      bs, ns, gs, addPipe, rem := Sweep(B, N, G, P, collide, leftoverX, width, S, V, D, F);
      alive := Alive(S, V[0], |V|, collide);
      SweptSpec(B, G, P, S, V, D, F, collide, leftoverX, alive);
      forall q | q in P
        ensures q.Valid() && q.topImageHeight == imageHeight
      {
        var k :| 0 <= k < |P| && P[k] == q;
      }
      OnscreenKept(P, V, rem, width);
      if |bs| > 0 {
        LastStaysUnpassed(S, V, D, collide, leftoverX, width);
      }
    }

    /**
     * Lines 268-272: when a pipe was passed, the score rises, every listed genome gains 5
     * and a pipe is appended at 600 with height `newHeight`. `spawned` is the appended
     * pipe, if any. The genomes are listed as `ge`, the genomes of G that `alive` flags.
     */
    method Restock(addPipe: bool, newHeight: int, ghost G: seq<Genome>, ghost alive: seq<bool>)
      returns (ghost spawned: seq<Pipe>)
      requires MIN_HEIGHT <= newHeight < MAX_HEIGHT && PipesPlaced()
      requires |G| == |alive| && Distinct(G) && ge == Keep(G, alive)
      modifies this`score, this`pipes, G
      ensures PipesPlaced()
      ensures |spawned| == (if addPipe then 1 else 0)
      ensures forall p :: p in spawned ==>
        fresh(p) && p.Valid() && p.x == SPAWN_X && p.height == newHeight as real && !p.passed &&
        p.topImageHeight == pipeImageHeight
      ensures pipes == old(pipes) + spawned && forall p :: p in spawned ==> p !in old(pipes)
      ensures score == old(score) + |spawned|
      ensures Fitness(G) == Bonused(old(Fitness(G)), alive, addPipe)
      ensures Views(old(pipes)) == old(Views(pipes)) && Flags(old(pipes)) == old(Flags(pipes))
      ensures birds == old(birds) && nets == old(nets) && ge == old(ge)
      ensures States(birds) == old(States(birds))
    {
      spawned := [];
      if addPipe {
        Reward(newHeight, G, alive);
        spawned := [pipes[|pipes| - 1]];
        assert pipes == old(pipes) + spawned;
      }
    }

    /** The views and flags of a list of pipes begin with those of its prefix P. */
    static lemma ViewsPrefix(P: seq<Pipe>, spawned: seq<Pipe>)
      ensures Views(P + spawned)[..|P|] == Views(P) && Flags(P + spawned)[..|P|] == Flags(P)
    {
    }

    /**
     * Removing the pipes in `rem` from P followed by the pipes `spawned` removes them
     * from P alone; the newest pipe stays unpassed when it was kept or is a new one.
     */
    static lemma RetiredKeepsNewest(P: seq<Pipe>, spawned: seq<Pipe>, rem: seq<Pipe>, addPipe: bool, some: bool)
      requires |spawned| == (if addPipe then 1 else 0)
      requires addPipe ==> spawned[0] !in rem && !spawned[0].passed
      requires some ==> addPipe || (|P| > 0 && !P[|P| - 1].passed && P[|P| - 1] !in rem)
      ensures Keep(P + spawned, Absent(P + spawned, rem)) == Keep(P, Absent(P, rem)) + spawned
      ensures some ==> LastUnpassed(Keep(P, Absent(P, rem)) + spawned)
    {
      assert forall p :: p in spawned ==> p == spawned[0];
      AbsentAppend(P, spawned, rem);
      if some && !addPipe {
        KeepLast(P, Absent(P, rem));
        assert P + spawned == P;
      }
    }

    /** Lines 277-281 on the generation, for birds in the states S: the out-of-bounds cull keeps the lists aligned. */
    method CullBirds(ghost S: seq<BirdState>, ghost G: seq<Genome>, ghost P: seq<Pipe>) returns (ghost kept: seq<bool>)
      requires Aligned() && PipesPlaced() && Newest() && S == States(birds)
      modifies this`birds, this`nets, this`ge, this`pipes
      ensures Aligned() && PipesPlaced() && Newest()
      ensures kept == EnumeratePopKeep(OutOfBounds(S, birdHeight))
      ensures birds == Keep(old(birds), kept) && nets == Keep(old(nets), kept) && ge == Keep(old(ge), kept)
      ensures States(birds) == Keep(S, kept)
      ensures pipes == old(pipes) && score == old(score)
      ensures Fitness(G) == old(Fitness(G)) && Views(P) == old(Views(P)) && Flags(P) == old(Flags(P))
    {
      ghost var FG, VP, DP := Fitness(G), Views(P), Flags(P);
      var bs, ns, gs;
      bs, ns, gs, kept := CullPaired(birds, nets, ge, S, birdHeight, genomeOf, netOf);
      assert Fitness(G) == FG && Views(P) == VP && Flags(P) == DP;
      assert PipesPlaced() && Newest() && Registered();
      if |bs| > 0 {
        assert bs[0] in birds;
      }
      StatesKeep(birds, S, kept);
      Commit(bs, ns, gs, pipes, bs, G, P);
    }

    /**
     * `CullOutOfBounds` on lists paired by `gOf` and `nOf`: the lists are filtered alike by
     * the enumeration's keep flags and stay paired.
     */
    static method CullPaired(B: seq<Bird>, N: seq<Net>, G: seq<Genome>, ghost S: seq<BirdState>, birdHeight: real,
                             ghost gOf: map<Bird, Genome>, ghost nOf: map<Bird, Net>)
      returns (bs: seq<Bird>, ns: seq<Net>, gs: seq<Genome>, ghost kept: seq<bool>)
      requires Parallel(B, N, G, gOf, nOf) && S == States(B)
      ensures Parallel(bs, ns, gs, gOf, nOf)
      ensures kept == EnumeratePopKeep(OutOfBounds(S, birdHeight))
      ensures bs == Keep(B, kept) && ns == Keep(N, kept) && gs == Keep(G, kept)
    {
      bs, ns, gs := CullOutOfBounds(B, N, G, S, birdHeight);
      kept := EnumeratePopKeep(OutOfBounds(S, birdHeight));
      KeepParallel(B, N, G, gOf, nOf, kept);
    }

    /**
     * Lines 231-247 with a bird left, for birds in the states S whose genomes have fitness
     * F: the index of the pipe ahead is chosen from the first bird, every bird takes its
     * `BirdStep` with its own network and that pipe, and every genome gains 0.1; the lists
     * and pipes stay as they are. The x of the last bird, which the sweep of lines 250-266
     * reads, is 230.
     */
    method Fly(activate: (Net, Observation) -> real, ghost S: seq<BirdState>, ghost F: seq<real>)
      returns (leftoverX: real)
      requires Valid() && |birds| > 0 && S == States(birds) && F == Fitness(ge)
      modifies birds, ge
      ensures Valid()
      ensures birds == old(birds) && nets == old(nets) && ge == old(ge) && pipes == old(pipes) && score == old(score)
      ensures Views(pipes) == old(Views(pipes)) && Flags(pipes) == old(Flags(pipes))
      ensures States(birds) ==
        Flown(S, nets, old(Views(pipes))[LeadPipeIndex(S[0].x, |pipes|, old(Views(pipes))[0], pipeWidth)], activate)
      ensures leftoverX == BIRD_X
      ensures Fitness(ge) == Rewarded(F)
    {
      var lead := LeadPipeIndex(birds[0].x, |pipes|, pipes[0].View(), pipeWidth);
      MoveBirds(pipes[lead].View(), activate);
      leftoverX := birds[|birds| - 1].x;
      assert leftoverX == BIRD_X by {
        assert birds[|birds| - 1] in genomeOf;
      }
    }

    /**
     * Lines 250-275 after the movement loop, for birds in the states S, pipes seen as V
     * with passed flags D and genomes with fitness F: the sweep, then the reward and the
     * new pipe, then the removal of retired pipes. The lists keep exactly the birds
     * `alive` flags; a popped bird's genome loses 1, and when a pipe was passed every
     * surviving genome gains 5; every old pipe moves once and is passed as `PassedAfter`
     * states; the pipes left are the old ones that were on screen, followed by `spawned`,
     * the new pipe, present exactly when a pipe became passed; the score counts it. The
     * invariant's parts hold again.
     */
    method Settle(collide: (PipeView, BirdState) -> bool, leftoverX: real, newHeight: int,
                  ghost S: seq<BirdState>, ghost V: seq<PipeView>, ghost D: seq<bool>, ghost F: seq<real>)
      returns (ghost alive: seq<bool>, ghost spawned: seq<Pipe>)
      requires Aligned() && PipesPlaced() && Newest() && 0.0 <= pipeWidth && |birds| > 0 && leftoverX >= 0.0
      requires MIN_HEIGHT <= newHeight < MAX_HEIGHT
      requires S == States(birds) && V == Views(pipes) && D == Flags(pipes) && F == Fitness(ge)
      modifies this`birds, this`nets, this`ge, this`score, this`pipes, ge, pipes
      ensures Aligned() && PipesPlaced() && Newest()
      ensures alive == Alive(S, V[0], |V|, collide)
      ensures birds == Keep(old(birds), alive) && nets == Keep(old(nets), alive) && ge == Keep(old(ge), alive)
      ensures States(birds) == Keep(S, alive)
      ensures Fitness(old(ge)) == Bonused(Penalized(F, alive), alive, |spawned| == 1)
      ensures Views(old(pipes)) == ShiftedAll(V) && Flags(old(pipes)) == PassedAfter(S, V, D, collide, leftoverX)
      ensures |spawned| == 1 <==> SomeNewlyPassed(D, Flags(old(pipes)))
      ensures |spawned| <= 1
      ensures |spawned| == 1 ==>
                fresh(spawned[0]) && spawned[0].x == SPAWN_X && spawned[0].height == newHeight as real &&
                !spawned[0].passed
      ensures pipes == Keep(old(pipes), Onscreen(V, pipeWidth)) + spawned
      ensures score == old(score) + |spawned|
    {
      var addPipe, rem;
      ghost var P, G := pipes, ge;
      assert Distinct(G) && |P| > 0;
      ghost var B := birds;
      addPipe, rem, alive := SweepPipes(collide, leftoverX, S, V, D, F);
      StatesKeep(B, S, alive);
      ghost var F1, V1, D1 := Fitness(G), Views(P), Flags(P);
      KeepDistinct(G, alive);
      assert D1[|P| - 1] == P[|P| - 1].passed;
      spawned := Restock(addPipe, newHeight, G, alive);
      ghost var P1 := pipes;
      ViewsPrefix(P, spawned);
      ghost var V2, D2 := Views(P1), Flags(P1);
      assert addPipe ==> P1[|P|] == spawned[0] && !spawned[0].passed;
      assert addPipe ==> V2[|P|] == spawned[0].View() && !D2[|P|];
      RetirePipes(rem, G);
      ViewsPrefix(P, spawned);
      if addPipe {
        assert V2[|P|] == spawned[0].View() && D2[|P|] == spawned[0].passed;
      }
      RetiredKeepsNewest(P, spawned, rem, addPipe, |birds| > 0);
      assert Fitness(G) == Bonused(F1, alive, addPipe);
      assert Views(P) == V1 && Flags(P) == D1;
      assert addPipe ==> fresh(spawned[0]) && spawned[0].x == SPAWN_X && spawned[0].height == newHeight as real &&
                         !spawned[0].passed;
    }

    /** Line 283 on the generation: the ground moves; no bird, genome or pipe changes. */
    method MoveGround(ghost B: seq<Bird>, ghost G: seq<Genome>, ghost P: seq<Pipe>)
      requires Grounded()
      modifies base
      ensures Grounded()
      ensures (base.x1, base.x2) == BaseMoved(old(base.x1), old(base.x2), base.width)
      ensures States(B) == old(States(B)) && Fitness(G) == old(Fitness(G))
      ensures Views(P) == old(Views(P)) && Flags(P) == old(Flags(P))
      ensures old(PipesPlaced()) ==> PipesPlaced()
      ensures old(Newest()) ==> Newest()
    {
      MoveKeepsTiled(base.x1, base.x2, base.width);
      base.Move();
    }

    /**
     * One pass of `while run:` (lines 231-283), with the height `random.randrange` draws
     * for a new pipe as `newHeight`, for birds in the states S, pipes seen as V with passed
     * flags D and genomes with fitness F. With no bird left the loop stops before anything
     * moves: the lists, the pipes, the fitness, the score and the ground stay as they are.
     * Otherwise every bird takes its step (`flown`), the pipe loop keeps the
     * birds `alive` flags, a passed pipe scores and spawns a new one, off-screen pipes are
     * removed, the cull keeps the birds `kept` flags, and the ground moves:
     *   - the lists hold the survivors of both filters, in their moved states;
     *   - each genome gains 0.1, loses 1 if its bird crashed, and otherwise gains 5 when a
     *     new pipe is spawned;
     *   - every old pipe moves once and is passed when it was, or when a bird was listed at
     *     its iteration and it is left of x = 230; a new pipe is spawned exactly when one
     *     became passed;
     *   - the pipes left are the old ones that were on screen, then the new one.
     * The generation invariant holds again.
     */
    method Tick(newHeight: int, activate: (Net, Observation) -> real, collide: (PipeView, BirdState) -> bool,
                ghost S: seq<BirdState>, ghost V: seq<PipeView>, ghost D: seq<bool>, ghost F: seq<real>)
      returns (running: bool, ghost flown: seq<BirdState>, ghost alive: seq<bool>, ghost kept: seq<bool>,
               ghost spawned: seq<Pipe>)
      requires Valid() && MIN_HEIGHT <= newHeight < MAX_HEIGHT
      requires S == States(birds) && V == Views(pipes) && D == Flags(pipes) && F == Fitness(ge)
      modifies this, birds, ge, pipes, base
      ensures Valid()
      ensures running <==> |old(birds)| > 0
      ensures !running ==> birds == old(birds) && nets == old(nets) && ge == old(ge) && pipes == old(pipes) &&
                           score == old(score) && spawned == []
      ensures !running ==> Views(pipes) == V && Flags(pipes) == D && Fitness(ge) == F
      ensures !running ==> base.x1 == old(base.x1) && base.x2 == old(base.x2)
      ensures running ==>
        flown == Flown(S, old(nets), V[LeadPipeIndex(S[0].x, |V|, V[0], pipeWidth)], activate) &&
        alive == Alive(flown, V[0], |V|, collide) &&
        kept == EnumeratePopKeep(OutOfBounds(Keep(flown, alive), birdHeight))
      ensures running ==>
        birds == Keep(Keep(old(birds), alive), kept) && nets == Keep(Keep(old(nets), alive), kept) &&
        ge == Keep(Keep(old(ge), alive), kept)
      ensures running ==> States(birds) == Keep(Keep(flown, alive), kept)
      ensures running ==> Fitness(old(ge)) == Bonused(Penalized(Rewarded(F), alive), alive, |spawned| == 1)
      ensures running ==>
        Views(old(pipes)) == ShiftedAll(V) && Flags(old(pipes)) == PassedAfter(flown, V, D, collide, BIRD_X)
      ensures running ==> (|spawned| == 1 <==> SomeNewlyPassed(D, Flags(old(pipes))))
      ensures |spawned| <= 1
      ensures |spawned| == 1 ==>
                fresh(spawned[0]) && spawned[0].x == SPAWN_X && spawned[0].height == newHeight as real &&
                !spawned[0].passed
      ensures running ==> pipes == Keep(old(pipes), Onscreen(V, pipeWidth)) + spawned
      ensures score == old(score) + |spawned|
      ensures running ==> (base.x1, base.x2) == BaseMoved(old(base.x1), old(base.x2), base.width)
    {
      if |birds| == 0 {
        return false, [], [], [], [];
      }
      running := true;
      flown, alive, kept, spawned := Advance(newHeight, activate, collide, S, V, D, F);
    }

    /**
     * Lines 277-283 on the generation: the out-of-bounds cull, then the ground moves.
     * The genomes G keep their fitness, and the pipes P and the new pipes keep their
     * views and flags.
     */
    method Finish(ghost G: seq<Genome>, ghost P: seq<Pipe>, ghost spawned: seq<Pipe>) returns (ghost kept: seq<bool>)
      requires Aligned() && PipesPlaced() && Newest() && Grounded()
      modifies this`birds, this`nets, this`ge, this`pipes, base
      ensures Valid()
      ensures kept == EnumeratePopKeep(OutOfBounds(old(States(birds)), birdHeight))
      ensures birds == Keep(old(birds), kept) && nets == Keep(old(nets), kept) && ge == Keep(old(ge), kept)
      ensures States(birds) == Keep(old(States(birds)), kept)
      ensures pipes == old(pipes) && score == old(score)
      ensures (base.x1, base.x2) == BaseMoved(old(base.x1), old(base.x2), base.width)
      ensures Fitness(G) == old(Fitness(G)) && Views(P) == old(Views(P)) && Flags(P) == old(Flags(P))
      ensures Views(spawned) == old(Views(spawned)) && Flags(spawned) == old(Flags(spawned))
    {
      kept := CullBirds(States(birds), G, P + spawned);
      MoveGround(birds, G, P + spawned);
      ViewsPrefix(P, spawned);
    }

    /** The body of the loop at lines 231-283, entered with a bird left: `Tick` when it runs. */
    method Advance(newHeight: int, activate: (Net, Observation) -> real, collide: (PipeView, BirdState) -> bool,
                   ghost S: seq<BirdState>, ghost V: seq<PipeView>, ghost D: seq<bool>, ghost F: seq<real>)
      returns (ghost flown: seq<BirdState>, ghost alive: seq<bool>, ghost kept: seq<bool>, ghost spawned: seq<Pipe>)
      requires Valid() && |birds| > 0 && MIN_HEIGHT <= newHeight < MAX_HEIGHT
      requires S == States(birds) && V == Views(pipes) && D == Flags(pipes) && F == Fitness(ge)
      modifies this, birds, ge, pipes, base
      ensures Valid()
      ensures flown == Flown(S, old(nets), V[LeadPipeIndex(S[0].x, |V|, V[0], pipeWidth)], activate)
      ensures alive == Alive(flown, V[0], |V|, collide)
      ensures kept == EnumeratePopKeep(OutOfBounds(Keep(flown, alive), birdHeight))
      ensures birds == Keep(Keep(old(birds), alive), kept) && nets == Keep(Keep(old(nets), alive), kept) &&
              ge == Keep(Keep(old(ge), alive), kept)
      ensures States(birds) == Keep(Keep(flown, alive), kept)
      ensures Fitness(old(ge)) == Bonused(Penalized(Rewarded(F), alive), alive, |spawned| == 1)
      ensures Views(old(pipes)) == ShiftedAll(V) && Flags(old(pipes)) == PassedAfter(flown, V, D, collide, BIRD_X)
      ensures |spawned| == 1 <==> SomeNewlyPassed(D, Flags(old(pipes)))
      ensures |spawned| <= 1
      ensures |spawned| == 1 ==>
                fresh(spawned[0]) && spawned[0].x == SPAWN_X && spawned[0].height == newHeight as real &&
                !spawned[0].passed
      ensures pipes == Keep(old(pipes), Onscreen(V, pipeWidth)) + spawned
      ensures score == old(score) + |spawned|
      ensures (base.x1, base.x2) == BaseMoved(old(base.x1), old(base.x2), base.width)
    {
      ghost var G0, P0 := ge, pipes;
      var leftoverX := Fly(activate, S, F);
      flown := States(birds);
      ghost var F1 := Fitness(ge);
      ghost var Go: seq<object>, Po: seq<object> := ge, pipes;
      assert base !in Go && base !in Po;
      alive, spawned := Settle(collide, leftoverX, newHeight, flown, V, D, F1);
      kept := Finish(G0, P0, spawned);
    }
  }
}
