# Flappy Bird NEAT training loop, as a verified Dafny model

This project models the deterministic simulation at the heart of
`ai_learns_flappy_bird.py`. A population of NEAT genomes each steers one bird through a
stream of pipes; a genome's fitness is what the game loop of `main` accumulates for its
bird. The model covers:

- the bird's vertical motion, `Bird.jump` and `Bird.move` (`kinematics.dfy`);
- the pipes, `Pipe.set_height` and `Pipe.move`, with the drawn height as an input (`obstacles.dfy`);
- the scrolling ground, `Base.move` (`ground.dfy`);
- the set-up of `main` and one pass of its `while run:` loop, on a `Generation` class that
  holds the parallel lists `birds`, `nets` and `ge`, the `pipes` list, the `score` and the
  ground (`population.dfy`);
- the Python list operations that loop relies on: popping marked indices, `remove`, and
  `pop` while iterating with `enumerate` (`sequences.dfy`).

Birds, pipes, the ground and genomes are classes whose fields the methods update in place,
as in the program. The methods are proved against specification functions of the old
state:

- `Moved` and `BaseMoved` give the new positions of a bird and of the ground;
- `Flown` gives the states of all birds after the movement loop;
- `ShiftedAll` and `PassedAfter` give where the pipes stand and which are passed;
- `Keep` with the flags `Alive`, `Absent`/`Onscreen` or `EnumeratePopKeep` gives which
  birds, networks, genomes and pipes remain;
- `Rewarded`, `Penalized` and `Bonused` give the genomes' fitness.

`Generation.Tick` states one pass of the loop in these terms. The properties of the game
are lemmas about those functions and the invariant `Generation.Valid`, which every tick
preserves. It says:

- the three lists stay aligned: position by position they hold a bird and the network
  and genome created with it, and no bird or genome is listed twice;
- every pipe's gap is in [50, 450) with its bottom 200 below its top edge;
- while a bird is left, the newest pipe is unpassed, so `pipes[pipe_ind]` is always valid;
- the two ground segments lie side by side, one image width apart, and together cover
  [0, width] for a ground image `width` wide.

The program's own quirks are modelled as written:

- Line 253 tests every bird against `pipes[0]`, whatever `pipe` the outer loop is on.
  `AliveAt` proves the consequence: a bird survives the sweep exactly when it misses the
  first pipe before that pipe's move and, if there is a second iteration, after it.
- Line 259 compares each pipe with `bird`, the bird the movement loop at line 241 left
  behind. That is the last bird in the list, always at x = 230 (`Fly` returns that x).
  The passage check runs only when the inner loop has at least one bird.
- Lines 277-281 `pop` while iterating with `enumerate`, so the bird that slides into a
  popped slot is not examined in that tick. `EnumeratePopKeepAt` states the exact rule.
- The bonus and the new pipe of lines 268-272 come once per tick, however many pipes were
  passed. The bonus goes to every genome still in `ge` after the collision pass. Birds
  removed by the boundary cull of lines 277-281 have already received it in that tick.
  They are also not charged the 1 that a collision costs.
- The observation at line 245 uses the pipe at `pipe_ind`. That index is 1 only when the
  first bird is past the first pipe's right edge and a second pipe exists.

Where a reading of the game as "agents that die at the boundary miss the passage bonus"
or "only the pipe ahead of the birds can be passed" differs from the code, the model follows the code
above.

The feed-forward networks are one function `activate` from a network and an observation
to the network's first output; a bird jumps when it is above 0.5. The pixel-mask collision
test is one function `collide` from a pipe's position and a bird's state. The height that
`random.randrange(50, 450)` draws for a new pipe is an input of each tick. The image sizes
(bird height, pipe width and height, ground width) are inputs of the constructor.

## Model

| member | source | states |
|---|---|---|
| Kinematics.Fall | ai_learns_flappy_bird.py:56 | the unclamped displacement `vel*t + 1.5*t**2` is 0 at tick count 0, and otherwise negative exactly when vel < -1.5 t and zero exactly when vel = -1.5 t |
| Kinematics.Displacement | ai_learns_flappy_bird.py:56-63 | the displacement of a move is at most 16, is negative exactly when `vel*t + 1.5*t**2` is, is below -2 when negative, and is 16 once the fall reaches 16 |
| Kinematics.Moved | ai_learns_flappy_bird.py:53-74 | a move raises the tick count by exactly 1, keeps x, vel and the jump height, raises y by at most 16, and lowers y exactly when the quadratic is negative, then by more than 2; when y decreases or ends below the jump height + 50 the tilt is raised to 25 if it is lower, otherwise it drops by 20 while above -90; a tilt in (-110, 25] stays there |
| Kinematics.Jumped | ai_learns_flappy_bird.py:47-51 | a jump leaves x, y and the tilt where they are, and the move after it lifts the bird by more than 2 |
| Kinematics.MoveNTracks | ai_learns_flappy_bird.py:53-55 | n moves raise the tick count by n and keep x, vel and the jump height |
| Kinematics.JumpWindow | ai_learns_flappy_bird.py:47-66 | after a jump, each of the next six moves lifts the bird by more than 2, and the seventh leaves y unchanged |
| Kinematics.ClimbStep | ai_learns_flappy_bird.py:53-66 | each move after a jump changes y by that tick's displacement at velocity -10.5 |
| Kinematics.JumpClimb | ai_learns_flappy_bird.py:47-66 | seven moves after a jump the bird sits exactly 96 higher than where it jumped |
| Kinematics.Bird.constructor | ai_learns_flappy_bird.py:36-45 | a new bird is at (x, y) with tilt 0, tick count 0, velocity 0 and jump height y |
| Kinematics.Bird.Jump | ai_learns_flappy_bird.py:47-51 | jump sets vel to -10.5, the tick count to 0 and the jump height to y, and changes nothing else |
| Kinematics.Bird.Move | ai_learns_flappy_bird.py:53-74 | the bird's new state is `Moved` of its old state |
| Obstacles.Shifted | ai_learns_flappy_bird.py:129-131 | one move puts a pipe exactly 5 further left with its height, top and bottom unchanged |
| Obstacles.ShiftedN | ai_learns_flappy_bird.py:129-131 | after n moves a pipe is 5n further left and its height, top and bottom are unchanged |
| Obstacles.KeptViews | ai_learns_flappy_bird.py:129-131 | views that each follow the one before by one move are the first view moved i times |
| Obstacles.RetiredAfter | ai_learns_flappy_bird.py:263-266 | for the views a pipe spawned at 600 has at the start of successive ticks, each the one before moved once (as `Tick` states for every kept pipe), the first tick that starts with its right edge left of the screen comes after n moves with 600 + width < 5n <= 605 + width |
| Obstacles.Pipe.constructor | ai_learns_flappy_bird.py:110-121 | a new pipe is at x, unpassed, well placed, with the drawn height |
| Obstacles.Pipe.SetHeight | ai_learns_flappy_bird.py:123-127 | the height is the drawn value in [50, 450), the bottom is height + 200 and the top is height minus the top image height; x and passed are unchanged |
| Obstacles.Pipe.Move | ai_learns_flappy_bird.py:129-131 | x decreases by exactly 5 and nothing else changes |
| Obstacles.Pipe.CheckPassed | ai_learns_flappy_bird.py:259-261 | an unpassed pipe left of the given x becomes passed and this is reported; a passed pipe stays passed; the pipe does not move |
| Ground.BaseMoved | ai_learns_flappy_bird.py:166-176 | each segment either moves left by 5 or is placed one width after the other |
| Ground.MoveKeepsTiled | ai_learns_flappy_bird.py:166-176 | for a ground image at least 5 wide, a move keeps one segment exactly one width right of the other and the left one in [-width, 0] |
| Ground.AlwaysTiled | ai_learns_flappy_bird.py:160-176 | from x1 = 0 and x2 = width, the segments stay tiled after any number of moves |
| Ground.Base.constructor | ai_learns_flappy_bird.py:160-164 | a new ground sits at y with its segments at 0 and one width |
| Ground.Base.Move | ai_learns_flappy_bird.py:166-176 | the new segment positions are `BaseMoved` of the old ones |
| Population.Observe | ai_learns_flappy_bird.py:245 | the network input is the bird's y and its distances to the gap's top and bottom; for a gap 200 high these add up to 200 exactly when the bird is level with the gap |
| Population.BirdStep | ai_learns_flappy_bird.py:241-247 | a bird moves, and when its network's answer on the moved state is above 0.5 (`Jumps`, line 246) it jumps (tick count 0, vel -10.5, jump height the new y); otherwise it keeps the moved state |
| Population.Flown | ai_learns_flappy_bird.py:241-247 | after the movement loop, bird i is in the state `BirdStep` gives for its old state, its own network and the lead pipe |
| Population.LeadPipeIndex | ai_learns_flappy_bird.py:231-235 | `pipe_ind` is 1 exactly when there is more than one pipe and the first bird is past the first pipe's right edge, else 0; it indexes an existing pipe |
| Population.Misses | ai_learns_flappy_bird.py:253 | flags exactly the birds that do not collide with the pipe |
| Population.Alive | ai_learns_flappy_bird.py:251-257 | gives one flag per bird for whether it is still listed after k iterations of the pipe loop; `AliveAt` states which |
| Population.AliveAt | ai_learns_flappy_bird.py:251-257 | after k iterations of the pipe loop a bird is listed exactly when it missed `pipes[0]` before its move (k >= 1) and after it (k >= 2); `CollisionView` is how line 253 sees `pipes[0]` in iteration k |
| Population.AlivePass | ai_learns_flappy_bird.py:252-257 | popping the colliders from the survivors of k iterations leaves the survivors of k + 1 |
| Population.AliveEarlier | ai_learns_flappy_bird.py:251-261 | if a bird is listed after k iterations, some bird was listed after every earlier iteration |
| Population.OutOfBounds | ai_learns_flappy_bird.py:278 | flags exactly the birds above the screen or whose bottom reaches 730 |
| Population.Onscreen | ai_learns_flappy_bird.py:263-264 | flags exactly the pipes whose right edge is not left of the screen, the ones line 263 does not collect |
| Population.OnscreenKept | ai_learns_flappy_bird.py:263-275 | when `rem` holds exactly the pipes whose right edge was left of the screen, the pipes `remove` leaves are flagged exactly by `Onscreen` |
| Population.ShiftedAll | ai_learns_flappy_bird.py:266 | every pipe's view after the loop is its old view moved once |
| Population.PassedAfter | ai_learns_flappy_bird.py:251-261 | after the pipe loop a pipe is passed exactly when it was, or when some bird was listed at its iteration and the pipe is left of the leftover bird |
| Population.Rewarded | ai_learns_flappy_bird.py:241-243 | every genome gains exactly 0.1 |
| Population.Penalized | ai_learns_flappy_bird.py:253-254 | exactly the genomes not flagged alive lose 1 |
| Population.Bonused | ai_learns_flappy_bird.py:268-271 | when a pipe was passed exactly the genomes flagged alive gain 5; otherwise nothing changes |
| Population.SweptStep | ai_learns_flappy_bird.py:259-266 | one more pipe iteration moves that pipe, sets its flag when the passage check fires, collects it when off screen, and sets `add_pipe` exactly when some pipe became passed |
| Population.SweepStart | ai_learns_flappy_bird.py:249-251 | before the pipe loop nobody is popped, no pipe has moved and nothing is collected |
| Population.SweepDone | ai_learns_flappy_bird.py:251-266 | after the pipe loop the lists hold exactly the survivors, crashed genomes have lost 1, every pipe moved once, passed flags only went from false to true, `add_pipe` says whether one did, and `rem` holds exactly the pipes whose right edge was left of 0 |
| Population.LastStaysUnpassed | ai_learns_flappy_bird.py:259-275 | if a bird survives the sweep and the newest pipe was unpassed, some pipe became passed or the newest pipe is still unpassed and not collected |
| Population.KeepParallel | ai_learns_flappy_bird.py:255-257 | popping the same indices from the three lists keeps them aligned and keeps exactly the flagged birds |
| Population.Pairing | ai_learns_flappy_bird.py:207-212 | the set-up loop pairs each bird with the network and genome appended beside it, one to one |
| Population.Generation.Hatch | ai_learns_flappy_bird.py:207-212 | one new bird at (230, 350) and one network per genome, in order, and every genome's fitness is 0 |
| Population.Generation.constructor | ai_learns_flappy_bird.py:203-219 | after set-up the invariant holds, `ge` is the population, one bird per genome at (230, 350) with fitness 0, one unpassed pipe at 600 with the drawn height, ground at 730 with its segments at 0 and one width, score 0, and the stored bird height, pipe width, pipe image height and ground width are the arguments |
| Population.Generation.StepBird | ai_learns_flappy_bird.py:242-247 | the bird's new state is `BirdStep` of its old state and its genome gains 0.1 |
| Population.Generation.MoveBirds | ai_learns_flappy_bird.py:241-247 | the birds' states become `Flown` of their old states with their own networks and the lead pipe, the genomes' fitness becomes `Rewarded` of the old, and the pipes do not change |
| Population.Generation.Fly | ai_learns_flappy_bird.py:231-247 | with a bird left, the lead pipe is `pipes[LeadPipeIndex]`, the birds' states become `Flown` with it, every genome gains exactly 0.1, nothing else changes, the invariant holds and the leftover bird's x is 230 |
| Population.Generation.CrashStep | ai_learns_flappy_bird.py:253-257 | a bird that collides costs its genome 1 and is popped from all three lists at the same index; otherwise nothing changes |
| Population.Generation.CrashIteration | ai_learns_flappy_bird.py:252-261 | one step down the indices keeps the inner-loop invariant `Crashing` |
| Population.Generation.CollideWith | ai_learns_flappy_bird.py:252-261 | the inner loop leaves exactly the non-colliding birds in all three lists, charges exactly the colliding birds' genomes 1, and marks the pipe passed exactly when it was unpassed, left of the leftover bird and some bird was listed |
| Population.Generation.PassBirds | ai_learns_flappy_bird.py:252-261 | from the survivors of k pipe iterations, the inner loop leaves the survivors of k + 1 and fires the passage check only while a bird is listed |
| Population.Generation.SweepStep | ai_learns_flappy_bird.py:252-266 | iteration k runs the inner loop, collects `pipes[k]` when off screen before its move, moves it, and changes no other pipe |
| Population.Generation.SweepIteration | ai_learns_flappy_bird.py:251-266 | one pipe iteration takes the loop state `SweepState` from k to k + 1 |
| Population.Generation.Sweep | ai_learns_flappy_bird.py:251-266 | the pipe loop leaves exactly the survivors in all three lists, charges exactly the popped birds' genomes 1, moves every pipe once, only sets passed flags from false to true, sets `add_pipe` exactly when one was set (`SomeNewlyPassed`, line 261), and collects exactly the pipes whose right edge was left of 0 |
| Population.Generation.SweepPlaced | ai_learns_flappy_bird.py:249-266 | the three lists keep exactly the birds `Alive` flags after all iterations, the genomes' fitness is `Penalized`, the pipes are `ShiftedAll` with `PassedAfter` flags, `add_pipe` says whether a flag was set, `rem` holds exactly the off-screen pipes, and the pipes stay well placed; while a bird survives, a pipe became passed or the newest pipe is still unpassed and not collected |
| Population.Generation.SweepPipes | ai_learns_flappy_bird.py:249-266 | the same outcome on the generation: the lists stay aligned, `birds`, `nets` and `ge` are filtered by `Alive`, fitness is `Penalized`, the pipes are `ShiftedAll` with `PassedAfter` flags, and `rem` holds exactly the off-screen pipes |
| Population.Generation.Bonus | ai_learns_flappy_bird.py:270-271 | every genome still in `ge` gains exactly 5 and every other genome keeps its fitness |
| Population.Generation.Spawn | ai_learns_flappy_bird.py:272 | one new unpassed, well-placed pipe at 600 with the drawn height is appended after the old pipes, which do not change |
| Population.Generation.Reward | ai_learns_flappy_bird.py:268-272 | the score rises by 1, every genome in `ge` gains exactly 5, and one new unpassed pipe at 600 with the drawn height is appended after the old ones |
| Population.Generation.Restock | ai_learns_flappy_bird.py:268-272 | exactly when `add_pipe` is set, the score rises by 1, the listed genomes gain 5 and one new pipe at 600 is appended; otherwise score, fitness and pipes are unchanged |
| Population.Generation.RetirePipes | ai_learns_flappy_bird.py:274-275 | removing each collected pipe leaves the old pipes without exactly those, in order |
| Population.Generation.RetiredKeepsNewest | ai_learns_flappy_bird.py:268-275 | removing the collected pipes after the append leaves the kept old pipes followed by the new one, and the newest pipe is then unpassed |
| Population.Generation.Settle | ai_learns_flappy_bird.py:249-275 | after the sweep, the reward and the removals the lists hold exactly the `Alive` birds, fitness is `Bonused` of `Penalized`, every old pipe moved once with `PassedAfter` flags, the pipes are the on-screen old ones followed by a new one exactly when some pipe became passed, the score counts it, and the invariant's parts hold |
| Population.Generation.CullStep | ai_learns_flappy_bird.py:277-281 | one step of the enumeration pops an out-of-bounds bird from all three lists and skips the bird that slides into its slot |
| Population.Generation.CullOutOfBounds | ai_learns_flappy_bird.py:277-281 | the cull leaves the three lists filtered by `EnumeratePopKeep` of the out-of-bounds flags |
| Population.Generation.CullPaired | ai_learns_flappy_bird.py:277-281 | the culled lists stay aligned and are filtered by the enumeration's flags |
| Population.Generation.CullBirds | ai_learns_flappy_bird.py:277-281 | on the generation, `birds`, `nets` and `ge` are filtered alike by the enumeration's flags, the lists stay aligned, the pipes and the newest-pipe invariant are kept, and no pipe or fitness changes |
| Population.Generation.MoveGround | ai_learns_flappy_bird.py:283 | the ground moves by `BaseMoved` and stays tiled; no bird, genome or pipe changes |
| Population.Generation.Finish | ai_learns_flappy_bird.py:277-283 | the cull, then the ground move: the lists are filtered by the enumeration's flags, the ground moves by `BaseMoved`, the invariant holds, and no pipe or fitness changes |
| Population.Generation.Advance | ai_learns_flappy_bird.py:231-283 | with a bird left, one pass of the loop: the birds move by `Flown`, the lists keep the `Alive` birds and then the cull's, fitness is `Bonused` of `Penalized` of `Rewarded`, every pipe moves once with `PassedAfter` flags, the pipes are the on-screen ones plus a new one exactly when one became passed, the score counts it, the ground moves, and the invariant holds |
| Population.Generation.Tick | ai_learns_flappy_bird.py:231-283 | the pass runs exactly when a bird is left and then has `Advance`'s outcome; with no bird left the loop stops before anything moves: the lists, the pipes with their positions and flags, the fitness, the score and the ground are unchanged; the invariant holds either way |
| Sequences.RemoveFirst | ai_learns_flappy_bird.py:274-275 | `list.remove(x)` on a list holding x leaves one element fewer, only elements of the list, and the old multiset less one x |
| Sequences.EnumeratePopKeep | ai_learns_flappy_bird.py:277-281 | popping while enumerating keeps every element that is in bounds, and drops the first element exactly when it is out of bounds |
| Sequences.EnumeratePopKeepAt | ai_learns_flappy_bird.py:277-281 | popping while enumerating keeps an element exactly when it is in bounds or its predecessor was just popped |
| Sequences.AbsentStep | ai_learns_flappy_bird.py:274-275 | each `pipes.remove(r)` finds r and removes exactly it |

## Left out

- Drawing, images, fonts and the window (`draw_window`, `Bird.draw`, `Pipe.draw`, `Base.draw`) are presentation. The image sizes the loop reads are inputs.
- The pygame event loop, `clock.tick(30)`, `pygame.quit` and the delay are I/O and timing. The model has no loop around `Tick`: `Tick` is one pass, and it returns `running`, false exactly when no bird is left (the `break` of lines 237-239). The quit event that also ends the loop is not modelled.
- The pixel-mask test of `Pipe.collide` and `Bird.get_mask` calls into pygame. It is the input function `collide` of a pipe's position and a bird's state. The mask is taken from `bird.img`, the animation frame that `Bird.draw` chooses (a tilt of -80 or below forces the second image); the frame is not part of the bird's state, so `collide` cannot depend on it. No proof relies on what `collide` answers.
- NEAT network creation and activation, `neat.Config`, `Population`, the reporters and `run` are a foreign library. A network is a handle, and its first output is the input function `activate`.
- `random.randrange(50, 450)` is an input height in [50, 450).
- The `GEN` counter only feeds the display.
- `Pipe.gap` is never read.
- Python floats are exact reals here. The rounding of repeated `+= 0.1` is not modelled.
- `bird.img.get_height()` is one constant bird height. The animation frames change the image but not its size.
