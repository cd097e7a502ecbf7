# rayfork-games: the per-frame simulation, modelled in Dafny

rayfork-games is a collection of eleven small arcade games written in C. The games are Tetris, Snake, Arkanoid, Space Invaders, Missile Commander, Asteroids, Asteroids Survival, Pang, Gorilas, Gold Fever and Floppy. Each game keeps its world in global variables. `InitGame` resets that world, and `UpdateGame` advances it by one frame from the keyboard and mouse state of that frame. Drawing, audio and the platform loop sit around this core.

This project models each game's `InitGame` and `UpdateGame`, and the helpers they call, as pure Dafny functions over an immutable state record:

- One module per game.
- A shared module `Common` holds vectors, rectangles, key states and the input record.
- `Common` also holds `GetRandomValue` over an abstract stream of `rand()` results, and a generic "draw again until accepted" loop, `Resample`.
- Tetris is split into four modules:
  - `TetrisGrid`: the 12 x 20 grid scans;
  - `TetrisPiece`: the 4 x 4 piece box, rotation and the turn guard;
  - `Tetris`: the frame;
  - `TetrisInvariant`: the invariant the frame keeps.
- The two asteroid games share `Space`: wrap-around, meteor pools, the ship, and meteor placement.

Each game's state carries a `draws` counter, the number of `rand()` calls made so far. Every random value is therefore a definite function of the stream and of that counter.

Properties proved include:

- a per-game invariant that `InitGame` establishes and `UpdateGame` preserves;
- counting laws:
  - asteroid and ball fragments land in free slots;
  - "all destroyed" holds exactly when the field is empty;
  - the score counts what was passed, destroyed or collected;
- closed forms of the order-dependent Tetris scans, and deletion of full lines;
- rotation of the piece by a quarter turn, and the turn guard checking exactly the squares the rotated piece will occupy;
- first-match, first-free and resample loops computing the first index that qualifies.

Four source defects are recorded under "## Findings". For each one, the project holds the as-written behaviour, a lemma that exhibits it, and a corrected definition with the intended property proved.

Points of the code's behaviour worth knowing:

- Tetris checks the top two rows after every frame that is not fading a line (`rayfork-tetris/src/tetris.c:287-296`), not only when a piece spawns. Any FULL square there ends the game.
- Tetris rotation is written in the code as four 4-cycles of box squares. The model proves that this is a quarter turn, `new[x][y] = old[3-y][x]`.
- A refused Tetris turn still clears and re-stamps the piece. The model proves that this leaves the grid unchanged.
- Asteroids Survival toggles pause on every frame in which P is *held*, not on the press edge (`rayfork-asteroids-survival/src/asteroids_survival.c:255`).

## Model

| member | source | states |
|---|---|---|
| Common.GetRandomValue | rayfork-tetris/src/tetris.c:121-131 | the value lies between the two bounds, whichever order they are given in |
| Common.GetRandomValueOnto | rayfork-tetris/src/tetris.c:121-131 | every value in the range is produced by some `rand()` result, so the range is covered exactly |
| Common.Draw | rayfork-tetris/src/tetris.c:121-131 | the `k`-th call of the stream yields a value in the requested range |
| Common.Resample | rayfork-snake/src/snake.c:214-221 | a redraw-until-accepted loop stops at an accepted attempt on the call stride, and no earlier attempt on that stride was accepted |
| Common.ResampleIsFirst | rayfork-snake/src/snake.c:214-221 | conversely, the first accepted attempt on the stride is the one the loop returns |
| TetrisGrid.PushUpClosed | rayfork-tetris/src/tetris.c:519-529 | the bottom-up scan that moves selected squares one row down has a per-square closed form: a square takes its upper neighbour if that one moved, and empties if it moved itself |
| TetrisGrid.PushDownClosed | rayfork-tetris/src/tetris.c:556-572 | the left-to-right scan that moves selected squares one column left has the matching per-square closed form |
| TetrisGrid.FallAt | rayfork-tetris/src/tetris.c:517-532 | after the fall, a play-area square is MOVING exactly when the square above it was MOVING; a square that was MOVING and received nothing becomes EMPTY; all other squares are unchanged |
| TetrisGrid.ShiftLeftCells | rayfork-tetris/src/tetris.c:556-572 | after a left move, each square holds what its right neighbour's MOVING status dictates; walls and frozen squares are untouched |
| TetrisGrid.ShiftRightCells | rayfork-tetris/src/tetris.c:594-610 | the mirror image for a right move, when column 11 holds no MOVING square |
| TetrisGrid.FullCountBounds | rayfork-tetris/src/tetris.c:759-769 | the FULL count of a row prefix is at most its length, and equals it exactly when every square in the prefix is FULL |
| TetrisGrid.CompleteIffFull | rayfork-tetris/src/tetris.c:759-784 | a row counts as complete exactly when all ten play columns are FULL |
| TetrisGrid.MarkLeavesNoComplete | rayfork-tetris/src/tetris.c:755-785 | after marking, no row is left complete: every complete row has turned FADING |
| TetrisGrid.MarkKeepsMoving | rayfork-tetris/src/tetris.c:755-785 | marking never creates or removes a MOVING square |
| TetrisGrid.MarkIdle | rayfork-tetris/src/tetris.c:755-785 | with no complete row, marking changes nothing |
| TetrisGrid.MarkCompleteOk | rayfork-tetris/src/tetris.c:755-785 | marking keeps the walls and the square values, leaves FADING rows whole, and keeps MOVING squares where they were |
| TetrisGrid.WallColumnsFixed | rayfork-tetris/src/tetris.c:499-785 | fall, freeze and marking never change the two wall columns |
| TetrisGrid.FreezeOk | rayfork-tetris/src/tetris.c:502-516 | freezing keeps the walls and values, and leaves no MOVING square |
| TetrisGrid.FadingShrinks | rayfork-tetris/src/tetris.c:792-815 | each pass of the delete loop strictly reduces the number of FADING rows, so the loop ends |
| TetrisGrid.DropSettled | rayfork-tetris/src/tetris.c:794-814 | deleting row `j` of a settled grid removes that row from each column and inserts an EMPTY square at the top |
| TetrisGrid.DeleteFromSettled | rayfork-tetris/src/tetris.c:787-816 | deletion is equal to an independent definition: each column keeps its non-FADING squares in order, padded with EMPTY at the top |
| TetrisGrid.DeletedCell | rayfork-tetris/src/tetris.c:787-816 | the square at row `j` after deletion is EMPTY for the top `n` rows (where `n` is the number of FADING rows), and otherwise the `(j-n)`-th surviving square |
| TetrisGrid.DeleteNoComplete | rayfork-tetris/src/tetris.c:787-816 | after deletion, no row is complete |
| TetrisGrid.DeleteOk | rayfork-tetris/src/tetris.c:787-816 | deletion keeps the walls and values, and leaves no FADING and no MOVING square |
| TetrisPiece.EmptyPiece | rayfork-tetris/src/tetris.c:209-216 | the cleared incoming-piece box is a well-formed box with no square |
| TetrisPiece.ShapeHasFourSquares | rayfork-tetris/src/tetris.c:475-497 | each of the seven shapes has exactly four squares |
| TetrisPiece.RotateCells | rayfork-tetris/src/tetris.c:689-714 | the four square cycles compose to a quarter turn: `new[x][y] == old[3-y][x]` |
| TetrisPiece.RotateKeepsPiece | rayfork-tetris/src/tetris.c:689-714 | rotation keeps the box well formed and keeps the number of squares |
| TetrisPiece.RotateFourTimes | rayfork-tetris/src/tetris.c:689-714 | four rotations give back the original box |
| TetrisPiece.TurnChecksFollowRotation | rayfork-tetris/src/tetris.c:622-688 | each of the sixteen guard checks looks at box square `(x, y)` and at the square `(y, 3-x)` that the rotation sends it to |
| TetrisPiece.RefusedTurnKeepsGrid | rayfork-tetris/src/tetris.c:716-736 | a refused turn clears the piece and re-stamps it in place, leaving the grid exactly as it was |
| TetrisPiece.RotatedSquareLands | rayfork-tetris/src/tetris.c:616-742 | when no check fires, every square of the rotated piece lands on a play-area square that was EMPTY or MOVING |
| TetrisPiece.AcceptedTurn | rayfork-tetris/src/tetris.c:616-742 | an accepted turn draws the rotated piece at the same place, and every square that was neither EMPTY nor MOVING is unchanged |
| TetrisPiece.TurnKeepsPiece | rayfork-tetris/src/tetris.c:616-742 | accepted or refused, the grid afterwards holds exactly the (possibly rotated) piece as its MOVING squares, with the same square count |
| TetrisPiece.SpawnPiece | rayfork-tetris/src/tetris.c:464-470 | a new piece stamped at (4, 0) into a grid with no piece becomes the grid's only MOVING squares |
| TetrisPiece.FallKeepsPiece | rayfork-tetris/src/tetris.c:517-532 | when the piece has not landed, the fall moves exactly the piece one row down |
| TetrisPiece.ShiftLeftKeepsPiece | rayfork-tetris/src/tetris.c:540-572 | an unblocked left move draws the piece one column left and changes nothing else |
| TetrisPiece.ShiftRightKeepsPiece | rayfork-tetris/src/tetris.c:574-611 | an unblocked right move draws the piece one column right and changes nothing else |
| TetrisPiece.ShiftWithoutPiece | rayfork-tetris/src/tetris.c:535-614 | with no MOVING square, neither lateral move is blocked, and both leave the grid unchanged |
| Tetris.InitGame | rayfork-tetris/src/tetris.c:172-217 | a fresh grid: walls on three sides, an empty play area, level 1, gravity speed 30, all counters zero, and a piece awaited |
| Tetris.GetRandomPiece | rayfork-tetris/src/tetris.c:475-497 | the incoming piece is one of the seven shapes (four squares), and only the incoming piece and the draw count change |
| Tetris.CreatePiece | rayfork-tetris/src/tetris.c:439-473 | the falling piece is the incoming one (a fresh random shape on the first piece), it is placed at (4, 0) and stamped, and a new incoming piece is drawn |
| Tetris.GravityStep | rayfork-tetris/src/tetris.c:257-269 | a landed piece freezes, and completed rows are marked FADING; an unlanded piece falls one row; the detection flag is set when nothing moves |
| Tetris.LateralStep | rayfork-tetris/src/tetris.c:535-614 | a left (else right) release edge shifts the grid's piece one column that way and moves `pieceX` by one, unless that side is blocked; the flag reports exactly the refusal, in which case nothing changed; without an edge nothing happens |
| Tetris.TurnStep | rayfork-tetris/src/tetris.c:616-742 | a turn is attempted exactly when UP is held; otherwise nothing changes |
| Tetris.Counters | rayfork-tetris/src/tetris.c:240-255 | the fall, lateral and turn counters advance by one; a release edge resets the lateral or turn counter to its speed; holding DOWN past the await time adds the gravity speed |
| Tetris.FadeFrame | rayfork-tetris/src/tetris.c:298-314 | the fade counter runs to the fading time; then complete lines are deleted and the line count grows by one |
| Tetris.UpdateWith | rayfork-tetris/src/tetris.c:220-325 | either turn rule: restart, pause, top-row game over and fade as in UpdateGame; with no live piece the frame spawns the incoming piece and resets the fast-fall counter; a live-piece frame is the piece branch; both are followed by the top-row check |
| Tetris.UpdateGame | rayfork-tetris/src/tetris.c:220-325 | corrected (turn only while the piece is live): enter restarts after game over; P toggles pause; an unpaused frame that is not fading spawns the incoming piece (fast-fall counter reset) when none is live and otherwise runs the gated piece branch, and the game ends exactly when the frame's grid has a FULL square in the top two rows; a fading frame is the fade step |
| Tetris.UpdateGameAsWritten | rayfork-tetris/src/tetris.c:220-325 | as written (turn step also in the landing frame): the same restart, pause, spawn, top-row game-over and fade clauses as the corrected frame, with the ungated piece branch for a live piece |
| TetrisInvariant.StartInv | rayfork-tetris/src/tetris.c:172-217 | the invariant holds at start: walls, a play area without FADING, MOVING squares exactly where the live piece is, and none without a piece |
| TetrisInvariant.CreatePieceInv | rayfork-tetris/src/tetris.c:439-473 | spawning a piece keeps the invariant |
| TetrisInvariant.GravityPhaseInv | rayfork-tetris/src/tetris.c:257-269 | the gravity step keeps the invariant, whether the piece falls or freezes |
| TetrisInvariant.LateralPhaseInv | rayfork-tetris/src/tetris.c:272-276 | the lateral step keeps the invariant |
| TetrisInvariant.TurnPhaseInv | rayfork-tetris/src/tetris.c:279-283 | the turn step, gated on a live piece, keeps the invariant |
| TetrisInvariant.PieceFrameInv | rayfork-tetris/src/tetris.c:238-284 | a whole frame with a live piece keeps the invariant |
| TetrisInvariant.FadeFrameInv | rayfork-tetris/src/tetris.c:298-314 | a fading frame, including the deletion at its end, keeps the invariant |
| TetrisInvariant.UpdateGameInv | rayfork-tetris/src/tetris.c:220-325 | every frame of the corrected game keeps the invariant |
| TetrisInvariant.NoPieceNoRefusal | rayfork-tetris/src/tetris.c:622-688 | with no MOVING square, no guard check fires |
| TetrisInvariant.FrozenPieceTurnsAgain | rayfork-tetris/src/tetris.c:279-283 | as written: in a frame where the piece freezes and UP is held with the turn due, the frame ends with no live piece but MOVING squares on the grid |
| TetrisInvariant.BrokenInv | rayfork-tetris/src/tetris.c:279-283 | such a state violates the invariant |
| TetrisInvariant.FrozenPieceStaysFrozen | rayfork-tetris/src/tetris.c:279-283 | corrected: the frame in which the piece freezes ends with no MOVING square |
| Snake.InitGame | rayfork-snake/src/snake.c:114-144 | every segment starts at the home square, the tail count is 1, the snake heads right, and no fruit is active |
| Snake.Steer | rayfork-snake/src/snake.c:156-175 | a turn is accepted exactly under the source's key and direction conditions; an accepted turn is perpendicular to the old heading and blocks a second turn until the snake moves |
| Snake.SteerOnce | rayfork-snake/src/snake.c:156-175 | once a turn is accepted, a second steer in the same frame changes nothing |
| Snake.AdvanceTrails | rayfork-snake/src/snake.c:178-192 | on a move, the head steps by the heading, and each segment in play takes the place of the one ahead of it |
| Snake.Advance | rayfork-snake/src/snake.c:178-192 | with a tail, the head moves by the speed and each segment takes its predecessor's place; segments past the tail are unchanged |
| Snake.Move | rayfork-snake/src/snake.c:178-206 | the game is over exactly when it was over already, or the new head is off the board, or the new head sits on a segment in play |
| Snake.PlaceFruit | rayfork-snake/src/snake.c:209-222 | the fruit lands on a lattice square that no segment in play covers; it is the candidate of the last attempt, two draws per attempt |
| Snake.FirstClear | rayfork-snake/src/snake.c:214-221 | the source's nested loops, which restart at segment 0 after each redraw, return the first candidate clear of the snake |
| Snake.PlaceFruitLoop | rayfork-snake/src/snake.c:209-222 | the loop computes the placement function |
| Snake.OverlapIsSame | rayfork-snake/src/snake.c:225-226 | on the lattice, the head's square overlaps the fruit exactly when they coincide |
| Snake.Eat | rayfork-snake/src/snake.c:225-231 | eating grows the snake by one segment, taking the position the last segment had before the move, and clears the fruit; otherwise nothing changes |
| Snake.Feed | rayfork-snake/src/snake.c:209-222 | a missing fruit is placed and made active, the snake unchanged; an existing fruit stays |
| Snake.FreshFruit | rayfork-snake/src/snake.c:209-222 | a freshly placed fruit is on the lattice, clear of the snake, and consumes at least one attempt's draws |
| Snake.Play | rayfork-snake/src/snake.c:153-234 | the game-over flag and every segment up to the old tail are the movement step's; the frame counter grows by one, the tail by at most one, and the fruit is active exactly when the snake did not grow |
| Snake.UpdateGame | rayfork-snake/src/snake.c:147-244 | enter restarts after game over; P toggles pause; an unpaused frame is Play (move, feed, eat), so the frame counter advances and the snake grows by at most one |
| Snake.UpdateGameInv | rayfork-snake/src/snake.c:147-244 | every frame keeps all segments and the fruit on the lattice, with a unit heading |
| Snake.GrowsIffHeadOnFruit | rayfork-snake/src/snake.c:178-231 | the snake grows exactly when, after the move, a fruit was active and the head sits on it |
| Arkanoid.InitGame | rayfork-arkanoid/src/arkanoid.c:105-131 | every brick is present, the paddle is centred, the ball waits on the paddle with zero speed, and lives are full |
| Arkanoid.MovePaddle | rayfork-arkanoid/src/arkanoid.c:143-146 | the paddle moves 5 per held arrow and stays fully on screen |
| Arkanoid.MoveBall | rayfork-arkanoid/src/arkanoid.c:149-167 | the ball becomes active exactly when it was active or SPACE was pressed; a waiting ball rides the paddle; launch speed is (0, -5) |
| Arkanoid.Walls | rayfork-arkanoid/src/arkanoid.c:170-178 | wall bounces keep the speed's magnitude; the bottom edge costs a life and parks the ball |
| Arkanoid.PaddleBounce | rayfork-arkanoid/src/arkanoid.c:181-191 | a descending ball that touches the paddle goes up, with horizontal speed bounded by 5 when it hits the paddle's face |
| Arkanoid.VisitBrick | rayfork-arkanoid/src/arkanoid.c:194-234 | a present brick is removed exactly when the ball hits one of its faces, and the matching speed component flips; no other brick changes |
| Arkanoid.OppositeFaces | rayfork-arkanoid/src/arkanoid.c:194-234 | the ball cannot meet a brick's top and bottom faces at once, nor its left and right faces |
| Arkanoid.BrickPass | rayfork-arkanoid/src/arkanoid.c:194-234 | the brick loop only removes bricks and keeps the speed's magnitude; if no brick is hit, the speed is unchanged |
| Arkanoid.Play | rayfork-arkanoid/src/arkanoid.c:142-249 | one frame loses at most one life, never restores a brick, and ends the game exactly when lives run out or every brick is gone |
| Arkanoid.UpdateGameInv | rayfork-arkanoid/src/arkanoid.c:134-260 | every frame keeps the paddle on screen and a waiting ball still; in play it costs at most one life and never restores a brick |
| Arkanoid.UpdateGame | rayfork-arkanoid/src/arkanoid.c:134-260 | enter restarts after game over, P toggles pause, and an unpaused frame is the played frame |
| Invaders.SpawnRect | rayfork-invaders/src/invaders.c:186-187 | an enemy (re)spawns off the right edge, in the band x 800-1800, y 0-440 |
| Invaders.InitGame | rayfork-invaders/src/invaders.c:158-206 | first wave of 10, no kills, no score, every enemy active in the spawn band, no shot active |
| Invaders.WaveStep | rayfork-invaders/src/invaders.c:217-286 | corrected: once kills reach the wave size, the next wave starts (10, 20, then 50 enemies) with kills reset, and the third wave wins; before that nothing changes |
| Invaders.WaveStepAsWritten | rayfork-invaders/src/invaders.c:217-286 | as written: when kills equal the wave size it does what the corrected check does; otherwise nothing changes |
| Invaders.ClampPlayer | rayfork-invaders/src/invaders.c:316-319 | the player is pushed back fully on screen; a player already inside keeps its position |
| Invaders.MovePlayer | rayfork-invaders/src/invaders.c:288-292 | each held arrow moves the player by 5 along its axis; the size is kept |
| Invaders.MoveEnemy | rayfork-invaders/src/invaders.c:303-311 | an active enemy flies left by 5, or, once past the left edge, reappears in x 800-1800, y 0-440; an inactive enemy is unchanged; the active flag is kept |
| Invaders.EnemyPass | rayfork-invaders/src/invaders.c:301-313 | enemies beyond the wave are untouched, and the pass costs two draws per escaping enemy (the per-enemy step is Invaders.EnemyPassSteps) |
| Invaders.EnemyPassSteps | rayfork-invaders/src/invaders.c:301-313 | any enemy in play ends the pass as its own step left it, taken on the draws left by the escapes before it |
| Invaders.Fire | rayfork-invaders/src/invaders.c:322-336 | SPACE held adds 5 to the rate; the shots change exactly when SPACE is held, the new rate is a multiple of 20 and some slot is idle, and then the first idle slot gets a shot at the player; without SPACE nothing changes |
| Invaders.ShotVsEnemy | rayfork-invaders/src/invaders.c:348-365 | against an inactive enemy nothing changes; a hit idles the shot, respawns the enemy on the next two draws, zeroes the rate and counts one kill worth 100; at the right edge the shot is idled and the rate zeroed whenever the enemy is active, hit or miss; a miss away from the edge changes nothing |
| Invaders.ShotVsEnemies | rayfork-invaders/src/invaders.c:346-367 | a shot against the enemies in play gains one kill (100 points, two draws) per active enemy it overlaps; enemies past the loop's range are untouched; the rate stays or drops to 0 |
| Invaders.StruckEnemies | rayfork-invaders/src/invaders.c:346-367 | any enemy the shot tests respawns, on the draws left by the hits before it, exactly when it is active and the shot overlaps it; otherwise it is unchanged |
| Invaders.SpentShot | rayfork-invaders/src/invaders.c:346-367 | a hit, or the right edge with some enemy in the loop active, idles the shot and zeroes the rate; with neither, the loop changes nothing |
| Invaders.ShotPass | rayfork-invaders/src/invaders.c:339-369 | over all shots, the score grows by 100 per kill, shots are only ever spent, any kill leaves the rate at 0, and slots past the loop are untouched |
| Invaders.ShotsFly | rayfork-invaders/src/invaders.c:339-344 | every active shot has flown right by 7; idle slots are untouched |
| Invaders.DoubleHit | rayfork-invaders/src/invaders.c:339-369 | one shot over two active enemies counts two kills in one frame |
| Invaders.PlayWith | rayfork-invaders/src/invaders.c:217-369 | one unpaused frame: the player ends on screen, the wave is what the wave check left, 100 points per kill, and the game ends exactly when it was over or the moved, unclamped player overlaps an enemy in play |
| Invaders.TouchEndsGame | rayfork-invaders/src/invaders.c:294-298 | in a played frame the game ends exactly when the moved player overlaps one of the enemies in play, active or not |
| Invaders.UpdateWith | rayfork-invaders/src/invaders.c:209-380 | either wave check: enter restarts after game over, P toggles pause, and an unpaused frame is the played frame |
| Invaders.UpdateGame | rayfork-invaders/src/invaders.c:209-380 | corrected (`>=` wave check): the same restart, pause and played-frame clauses |
| Invaders.UpdateGameAsWritten | rayfork-invaders/src/invaders.c:209-380 | as written (`==` wave check): the same restart, pause and played-frame clauses |
| Invaders.UpdateInv | rayfork-invaders/src/invaders.c:209-380 | every frame keeps the wave size consistent with the wave, kills non-negative, and enemies in range |
| Invaders.WaveStuckAsWritten | rayfork-invaders/src/invaders.c:230 | as written: once kills exceed the wave size, the wave never advances and the third wave is never won |
| Invaders.WaveAdvances | rayfork-invaders/src/invaders.c:230 | corrected: once kills reach the wave size, the next frame advances the wave, or wins the third |
| Commander.InitGame | rayfork-commander/src/commander.c:182-232 | all launchers and buildings stand at their fixed positions; no missile, interceptor or explosion is active; the score is 0 |
| Commander.PlacedAt | rayfork-commander/src/commander.c:213-224 | the launchers stand at x 80, 400 and 720, and the buildings at x 160, 240, 320, 480, 560 and 640 |
| Commander.MultiplierShape | rayfork-commander/src/commander.c:371-385 | the explosion radius grows until the increase time, then shrinks, and ends at 3/7 |
| Commander.ExplosionLifetime | rayfork-commander/src/commander.c:371-385 | an explosion lives for exactly the total time, with the radius the multiplier gives for each frame, then it goes inactive |
| Commander.Spawn | rayfork-commander/src/commander.c:267-271 | a new explosion takes the cursor slot, the cursor wraps, and the other slots are untouched |
| Commander.InterceptorsClosedForm | rayfork-commander/src/commander.c:249-276 | the interceptor loop moves each interceptor, and the first one to arrive stops and spawns an explosion; the loop breaks there |
| Commander.AtMostOneArrives | rayfork-commander/src/commander.c:249-276 | at most one interceptor is stopped per frame, later ones are unchanged, and the explosion spawns where it stopped |
| Commander.StrikeRow | rayfork-commander/src/commander.c:292-343 | a missile that touches a standing launcher (or building) destroys the first such target, dies, and explodes; it never scores |
| Commander.Blast | rayfork-commander/src/commander.c:346-364 | a missile inside an active explosion dies, explodes and scores 100 |
| Commander.MissileWith | rayfork-commander/src/commander.c:281-367 | an inactive missile is left alone; an active one moves by its speed and below the bottom edge is only deactivated; other missiles untouched; the score grows by 0 or 100; targets are only destroyed |
| Commander.MissileStep | rayfork-commander/src/commander.c:279-368 | corrected: a missile in flight scores exactly when it touched no launcher and no building but is inside an explosion |
| Commander.MissileStepAsWritten | rayfork-commander/src/commander.c:279-368 | as written: a missile in the air scores exactly when an explosion holds it among the slots the launcher and building tests left, each of which started an explosion at the missile for a struck target; with no target struck it is the corrected step |
| Commander.MissilesUpToScore | rayfork-commander/src/commander.c:279-368 | the missile loop adds 100 per missile killed by an explosion |
| Commander.MissilesUpToKeeps | rayfork-commander/src/commander.c:279-368 | the missile loop only ever destroys targets, and keeps the explosion slots well formed |
| Commander.Shooter | rayfork-commander/src/commander.c:497-499 | the left button fires from launcher 1, the middle button from launcher 2, the third trigger from launcher 3 |
| Commander.OutgoingFire | rayfork-commander/src/commander.c:492-528 | a click on a standing launcher launches one interceptor from it towards the mouse, in the next slot; otherwise nothing changes |
| Commander.FiredFromStanding | rayfork-commander/src/commander.c:492-528 | every new interceptor comes from a launcher that is standing |
| Commander.IncomingFire | rayfork-commander/src/commander.c:530-562 | every launch period, one missile enters at the top (x 20-780) aimed at the ground (x 20-780), using two draws |
| Commander.DownCountAll | rayfork-commander/src/commander.c:392-405 | the destroyed count equals the row size exactly when every target in the row is down |
| Commander.GameOverCheck | rayfork-commander/src/commander.c:392-405 | the game ends exactly when all launchers or all buildings are down |
| Commander.Move | rayfork-commander/src/commander.c:243-385 | the frame counter advances by one, the score grows by at most 100 per missile slot, targets are only destroyed, and the invariant is kept |
| Commander.Launch | rayfork-commander/src/commander.c:386-405 | a missile is launched exactly when the frame count is a multiple of 80; targets and score are untouched; a lost game stays lost |
| Commander.Play | rayfork-commander/src/commander.c:235-416 | one frame keeps the invariant, only destroys targets, and scores a multiple of 100, at most 100 per missile |
| Commander.UpdateWith | rayfork-commander/src/commander.c:235-416 | enter restarts after game over, P toggles pause, an unpaused frame is the played frame, and the invariant is kept |
| Commander.UpdateGame | rayfork-commander/src/commander.c:235-416 | corrected (a destroyed missile is not checked again): the same restart, pause and played-frame clauses, invariant kept |
| Commander.UpdateGameAsWritten | rayfork-commander/src/commander.c:235-416 | as written: the same restart, pause and played-frame clauses, invariant kept |
| Commander.StartInv | rayfork-commander/src/commander.c:182-232 | the initial state satisfies the invariant |
| Commander.LauncherLossScoresAsWritten | rayfork-commander/src/commander.c:288-365 | as written: a missile that destroys a launcher while inside an explosion also scores 100 |
| Commander.LauncherLossScoresNothing | rayfork-commander/src/commander.c:288-365 | corrected: a missile that destroys a launcher scores nothing |
| Space.Wrap | rayfork-asteroids/src/asteroids.c:370-373 | a coordinate past one edge (by more than the radius) reappears at the other; the result lies within the band |
| Space.MoveMeteor | rayfork-asteroids/src/asteroids.c:361-408 | an inactive meteor is unchanged; an active one moves by its speed and ends inside the wrap band, exactly at the moved point when that is already inside |
| Space.WrapInside | rayfork-asteroids/src/asteroids.c:370-373 | wrapping leaves exactly the in-band coordinates alone, and is idempotent |
| Space.MovePoolBand | rayfork-asteroids/src/asteroids.c:361-408 | moving a pool keeps active flags and the active count, and every active meteor stays in its wrap band |
| Space.MovePool | rayfork-asteroids/src/asteroids.c:361-408 | every meteor of the pool takes its own move |
| Space.DeactivateCount | rayfork-asteroids/src/asteroids.c:416-490 | deactivating a meteor lowers the active count by one |
| Space.ActivateCount | rayfork-asteroids/src/asteroids.c:416-490 | activating a meteor raises the active count by one |
| Space.NoneActive | rayfork-asteroids/src/asteroids.c:412-495 | the active count is zero exactly when no meteor is active |
| Space.Throttle | rayfork-asteroids/src/asteroids.c:252-265 | holding UP alone never lowers the acceleration; without UP it never rises above its old value (or 0); with neither key a non-positive acceleration stops at 0; it stays within (-0.04, 1.04) |
| Space.Steer | rayfork-asteroids/src/asteroids.c:243-275 | the ship turns 5 degrees per held arrow, heads along its rotation, and stays within its wrap band |
| Space.ContactLoop | rayfork-asteroids/src/asteroids.c:345-358 | the ship is lost exactly when it touches an active meteor |
| Space.PlaceOne | rayfork-asteroids/src/asteroids.c:170-210 | a placed meteor is on screen, out of the centre band vertically (and horizontally when checked), and moving |
| Space.PlaceMeteors | rayfork-asteroids/src/asteroids.c:170-210 | every placed meteor is active and in range; the first is out of the horizontal centre band |
| Space.PlaceSecondUnchecked | rayfork-asteroids/src/asteroids.c:170-210 | the check's carried-over flag leaves the second meteor's x unchecked |
| Asteroids.VictoryIsClearField | rayfork-asteroids/src/asteroids.c:495 | the destroyed count reaches 28 exactly when no meteor of any size is active |
| Asteroids.FieldBounded | rayfork-asteroids/src/asteroids.c:412-492 | the medium and small fill counters stay even and below the pool sizes, so fragment writes stay in bounds |
| Asteroids.InitGame | rayfork-asteroids/src/asteroids.c:139-232 | four big meteors placed away from the centre, empty medium and small pools, no shots, the ship at the centre |
| Asteroids.Fire | rayfork-asteroids/src/asteroids.c:278-292 | SPACE launches only the first idle shot, along the ship's rotation; live shots are untouched |
| Asteroids.ShotFrame | rayfork-asteroids/src/asteroids.c:294-340 | a live shot moves by its speed, ages by one, and dies off screen or at the life limit |
| Asteroids.FrameShotsOk | rayfork-asteroids/src/asteroids.c:278-340 | firing and moving keep shots well formed; every live shot afterwards is one frame older than before, or one frame old if it was just fired |
| Asteroids.SpawnPair | rayfork-asteroids/src/asteroids.c:416-476 | a split places two fragments at the hit point, moving in opposite directions, in the next free pair of slots |
| Asteroids.StrikeBig | rayfork-asteroids/src/asteroids.c:416-445 | a shot that hits a big meteor destroys it and spawns two mediums moving apart; otherwise nothing changes |
| Asteroids.StrikeMedium | rayfork-asteroids/src/asteroids.c:447-476 | the same for a medium meteor and two smalls |
| Asteroids.StrikeSmall | rayfork-asteroids/src/asteroids.c:478-490 | a shot that hits a small meteor destroys it |
| Asteroids.StrikeAll | rayfork-asteroids/src/asteroids.c:412-492 | one shot against all pools keeps the counts consistent, destroys at most three meteors, and changes nothing if it destroys none |
| Asteroids.Strikes | rayfork-asteroids/src/asteroids.c:412-492 | the shot loop keeps the field counts consistent; each shot is kept or spent, and is spent only if it destroyed something |
| Asteroids.MoveField | rayfork-asteroids/src/asteroids.c:361-408 | each pool moves meteor by meteor and the counts are kept |
| Asteroids.Contact | rayfork-asteroids/src/asteroids.c:345-358 | the game is lost exactly when it already was or the ship touches an active meteor of some pool |
| Asteroids.Play | rayfork-asteroids/src/asteroids.c:242-492 | one unpaused frame: the ship is steered, shots age or fire, counts stay consistent, at most three meteors fall per shot, and the game is lost exactly on contact of the moved ship |
| Asteroids.Running | rayfork-asteroids/src/asteroids.c:235-505 | P toggles pause; an unpaused frame is Play, followed by the victory test; victory is declared exactly when all 28 meteors are destroyed |
| Asteroids.UpdateGame | rayfork-asteroids/src/asteroids.c:235-505 | a running frame is Running (pause or Play, then the victory test); every frame keeps the invariant, and enter after game over restarts with a fresh field |
| Survival.PlacePools | rayfork-asteroids-survival/src/asteroids_survival.c:169-247 | every medium and small meteor is placed active, on screen and moving |
| Survival.InitGame | rayfork-asteroids-survival/src/asteroids_survival.c:149-248 | a fresh field of roaming meteors, the ship at the centre, the frame counter 0 |
| Survival.MoveRoaming | rayfork-asteroids-survival/src/asteroids_survival.c:312-342 | moving keeps every meteor active and within its wrap band |
| Survival.Play | rayfork-asteroids-survival/src/asteroids_survival.c:257-342 | the ship is lost exactly when it touches a meteor; every meteor moves |
| Survival.UpdateGame | rayfork-asteroids-survival/src/asteroids_survival.c:251-353 | pause flips on every frame that P is held; an unpaused frame is Play (ship, contact, meteors) and advances the frame counter; enter after game over restarts |
| Pang.MoveBall | rayfork-pang/src/pang.c:358-423 | a ball moves by its speed, flips its horizontal speed at a side wall, and never sinks below the floor |
| Pang.MoveField | rayfork-pang/src/pang.c:358-423 | the three pools move with their own gravity and floor bounce; counts and score are kept |
| Pang.Walk | rayfork-pang/src/pang.c:274-279 | the player moves by its speed per held arrow and is clamped to the screen |
| Pang.Fire | rayfork-pang/src/pang.c:282-297 | SPACE with no live shot fires one from the player's head, and its trail starts at the floor |
| Pang.ShotFrame | rayfork-pang/src/pang.c:300-329 | a live shot rises, ages, and dies off screen or at the life limit |
| Pang.StrikeBig | rayfork-pang/src/pang.c:430-471 | a big ball hit by the trail is destroyed, scores, and splits into two mediums moving apart |
| Pang.StrikeMedium | rayfork-pang/src/pang.c:476-517 | a medium ball hit by the trail is destroyed, scores, and splits into two smalls |
| Pang.StrikeSmall | rayfork-pang/src/pang.c:522-546 | a small ball hit by the trail is destroyed and scores |
| Pang.Strike | rayfork-pang/src/pang.c:426-548 | a live shot destroys at most one ball per frame; big balls are tried first |
| Pang.VictoryIsClearField | rayfork-pang/src/pang.c:550 | the destroyed count reaches its total exactly when no ball is left, and the score is then 1200 |
| Pang.Contact | rayfork-pang/src/pang.c:331-356 | the player is lost exactly when it touches an active ball |
| Pang.Play | rayfork-pang/src/pang.c:267-551 | one frame keeps the invariant, destroys at most one ball, spends the shot on a hit, and wins exactly when the field is clear |
| Pang.VictoryNotSkipped | rayfork-pang/src/pang.c:550 | the victory test on equality cannot be skipped over |
| Pang.PlaceBig | rayfork-pang/src/pang.c:213-230 | both big balls start active, in range, with the same non-zero speed |
| Pang.InitGame | rayfork-pang/src/pang.c:175-262 | a fresh field with two big balls, empty fragment pools, no score, and the player centred |
| Pang.UpdateGame | rayfork-pang/src/pang.c:265-560 | P toggles pause; enter after game over or victory restarts; every frame keeps the invariant |
| Gorilas.WidthRanges | rayfork-gorilas/src/gorilas.c:356-368 | the integer division makes widths range over [47, 70] as written, against [66, 100] with the intended ratio |
| Gorilas.Skyline | rayfork-gorilas/src/gorilas.c:361-381 | buildings are laid side by side from the start, each with a width in the drawn range |
| Gorilas.BuildingAt | rayfork-gorilas/src/gorilas.c:361-381 | a building at the given x, its width in the drawn range, its top between y 180 and 360 and its base one pixel below the window |
| Gorilas.InitBuildings | rayfork-gorilas/src/gorilas.c:348-381 | corrected: fifteen side-by-side buildings from x 0, widths in [66, 100] |
| Gorilas.InitBuildingsAsWritten | rayfork-gorilas/src/gorilas.c:348-381 | as written: fifteen side-by-side buildings from x 0, widths in [47, 70] |
| Gorilas.Stand | rayfork-gorilas/src/gorilas.c:403-413 | a gorilla stands on the roof of the building under its x; if no building starts to its right, it keeps its old y |
| Gorilas.DrawnX | rayfork-gorilas/src/gorilas.c:400-401 | the left gorilla is drawn at x 40-160, the right one at 640-760 |
| Gorilas.InitPlayer | rayfork-gorilas/src/gorilas.c:383-425 | alive, team by index parity, aims zeroed, impact point off screen, x drawn for the team and snapped to a roof; on a roof with the corrected skyline |
| Gorilas.InitPlayers | rayfork-gorilas/src/gorilas.c:383-425 | the teams alternate and everyone is alive; with the corrected skyline, each gorilla stands on a roof |
| Gorilas.GorillaFindsRoof | rayfork-gorilas/src/gorilas.c:383-425 | with the corrected widths, some building starts to the right of any x up to 760 |
| Gorilas.RightGorillaAdriftAsWritten | rayfork-gorilas/src/gorilas.c:356-413 | as written: with every `rand()` at 0, the row ends at 705 and the right gorilla, at 760, keeps a stale y |
| Gorilas.UpdatePlayer | rayfork-gorilas/src/gorilas.c:427-489 | aiming follows the mouse only within the player's quadrant; a click there throws, remembering the shot |
| Gorilas.Aim | rayfork-gorilas/src/gorilas.c:427-489 | the invariant is kept; a throw starts exactly when the click is in the thrower's quadrant, from the thrower's position; other gorillas untouched |
| Gorilas.Fly | rayfork-gorilas/src/gorilas.c:491-514 | a thrown ball starts from the last aim with speed (±cos, −sin) of the angle times power·3/60; each frame it moves by its speed and the vertical speed gains the gravity step |
| Gorilas.Ballistic | rayfork-gorilas/src/gorilas.c:512-514 | n frames of flight follow the closed form: constant horizontal speed, vertical speed up n gravity steps, height changed by n·vy plus n(n−1)/2 gravity steps |
| Gorilas.Resolve | rayfork-gorilas/src/gorilas.c:516-572 | the ball leaves the screen, hits another gorilla, is shielded by a crater, hits a building, or flies on, and each outcome holds exactly as stated |
| Gorilas.LaterCratersIgnored | rayfork-gorilas/src/gorilas.c:516-572 | only the first MAX_BUILDINGS crater slots are consulted |
| Gorilas.Apply | rayfork-gorilas/src/gorilas.c:491-572 | a hit gorilla dies and a hit building gets a crater; nothing else changes |
| Gorilas.UpdateBall | rayfork-gorilas/src/gorilas.c:491-572 | the frame resolves exactly when the coming outcome does; casualties and craters follow that outcome; the thrower's alive flag is unchanged |
| Gorilas.Survivors | rayfork-gorilas/src/gorilas.c:190-217 | both teams survive exactly when no gorilla was hit; the thrower survives |
| Gorilas.Throw | rayfork-gorilas/src/gorilas.c:185-218 | a resolved throw passes the turn unless it ends the game; the game ends exactly when a gorilla was hit |
| Gorilas.UpdateGame | rayfork-gorilas/src/gorilas.c:176-230 | corrected (restarts use the corrected skyline): P toggles pause; an unpaused frame aims while the banana is not in the air and otherwise throws; enter restarts after game over, and a game over leaves the thrower alive and the other gorilla dead |
| Gorilas.InitGame | rayfork-gorilas/src/gorilas.c:156-173 | corrected buildings, gorillas alive on roofs, and no crater |
| GoldFever.Clamp | rayfork-goldfever/src/gold_fever.c:186-196 | a coordinate is pushed back inside the edges, and an inside one is kept |
| GoldFever.ChaseAxis | rayfork-goldfever/src/gold_fever.c:198-220 | the chasing enemy steps towards the player on each axis, and never ends further away than before or than one step |
| GoldFever.EnemyStep | rayfork-goldfever/src/gold_fever.c:198-220 | the enemy chases when following or near the player (unless the player is safe at home), otherwise patrols and turns at the walls |
| GoldFever.CoinAt | rayfork-goldfever/src/gold_fever.c:165 | a coin is placed active and fully on screen |
| GoldFever.Chase | rayfork-goldfever/src/gold_fever.c:186-235 | the player is caught exactly when the enemy touches it outside home; touching the coin picks it up and makes the enemy follow |
| GoldFever.AtHome | rayfork-goldfever/src/gold_fever.c:237-252 | bringing the coin home scores, respawns the coin and stops the follow |
| GoldFever.Play | rayfork-goldfever/src/gold_fever.c:184-253 | one frame scores 0 or one coin; on game over the high score covers the score |
| GoldFever.UpdateGame | rayfork-goldfever/src/gold_fever.c:178-263 | every frame keeps the invariant: the score is a multiple of the coin value, and the enemy's speed follows the score |
| GoldFever.InitGame | rayfork-goldfever/src/gold_fever.c:148-175 | the player, enemy and coin start at their places, with score 0 and the high score kept |
| Floppy.PassedIsBehind | rayfork-floppy/src/floppy.c:191-207 | the number of pairs flagged as passed equals the number of pairs behind the floppy |
| Floppy.ScoreCountsPairsBehind | rayfork-floppy/src/floppy.c:191-207 | during play, the score is 100 per tube pair behind the floppy |
| Floppy.Scroll | rayfork-floppy/src/floppy.c:179-185 | every pair moves left by the tube speed, and the spacing is kept |
| Floppy.Fall | rayfork-floppy/src/floppy.c:187-188 | SPACE lifts the floppy by 3; otherwise it falls by 1 |
| Floppy.Check | rayfork-floppy/src/floppy.c:191-207 | a tube collision ends the game; passing a pair scores it once and clears its flag |
| Floppy.Contact | rayfork-floppy/src/floppy.c:191-207 | over all tubes, the game ends exactly when some tube is hit, and the score grows by 100 per newly passed pair |
| Floppy.Play | rayfork-floppy/src/floppy.c:177-207 | one frame keeps the invariant, scrolls, falls, and ends exactly on a tube hit |
| Floppy.LayPairs | rayfork-floppy/src/floppy.c:142-146 | pairs start at x 400 plus a fixed spacing, at random heights |
| Floppy.InitGame | rayfork-floppy/src/floppy.c:136-168 | all pairs ready, score 0, high score kept |
| Floppy.UpdateGame | rayfork-floppy/src/floppy.c:171-218 | P toggles pause, enter restarts after game over, the high score never drops, and the invariant is kept |

## Left out

- Drawing, audio, window and platform code, `game_init` and `game_update`: they do not change the game state.
- Cosmetic state is not modelled: the points pop-ups, fade and alpha values, colours and grey levels, Tetris `fadingColor`, and the Invaders `smooth` flag.
- `rand()` is an abstract stream of naturals indexed by call number. The C library generator is not modelled.
- Collision tests (`rf_check_collision_*`) are an abstract oracle passed in as a parameter. Only their outcomes are used.
- Floating point is modelled as exact reals. Rounding and NaN are not modelled.
- `sinf`, `cosf`, `sqrtf`, `asinf` and `tanf` are parameters. Where a property needs a fact about them, that fact is a hypothesis.
- Common.Resample: a redraw loop is assumed to end. The fairness hypothesis `Eventually` is a precondition; the source loops for ever on a stream that never qualifies.
- Snake.UpdateGame: requires the tail count below 256. At 256 the source writes past the segment array.
- Gorilas.UpdateGame: requires a free crater slot when a building hit is coming. `explosionNumber` is never reset (`rayfork-gorilas/src/gorilas.c:493`), and the 201st building hit writes past the array.
- Tetris.UpdateGame: requires column 11 to hold no MOVING square. The invariant guarantees this; otherwise the right-shift scan would write outside the grid.
- Tetris: reads outside the 12 x 20 grid in the turn guard return BLOCK. In C they read neighbouring memory.
- Commander: the frame counter's `int` overflow is not modelled.
- Commander: interceptor and missile headings are a parameter built from the square-root distance.
- Commander: the third launcher's trigger is a boolean parameter.
- Commander: each missile step is a reduction of the source's loops over targets and explosions, not a literal loop.
- Pang: `lose`, `awake` and `framesCounter` are never read by the frame logic and are dropped.
- Gorilas: `isPlayer` is not kept.
- Snake and GoldFever: C leaves unordered the two `GetRandomValue` calls inside one compound literal (`rayfork-snake/src/snake.c:212`, `rayfork-snake/src/snake.c:218`, `rayfork-goldfever/src/gold_fever.c:165`, `rayfork-goldfever/src/gold_fever.c:247`). The model takes x from the earlier draw and y from the later one.
- GoldFever: the player's speed and radius are constants, as in the source.
- Floppy: tube rectangles are derived from the pair positions, not stored.
- Floppy: the per-pair "not yet passed" flag that the source keeps in `tubes[i/2].active` is a `ready` sequence.
- Asteroids: meteors of one size share a pool record.
- Asteroids: the `correctRange` flag carried over between placements is modelled as written, so only the first meteor's x is checked.
- Asteroids Survival: all medium meteors are placed the same way as Asteroids' big ones. The carried-over flag leaves later x values unchecked, as written.

## Findings

| source | as written | input that shows it | evidently intended | confidence | as-written member | corrected member |
|---|---|---|---|---|---|---|
| rayfork-tetris/src/tetris.c:279-283 | the turn step runs in the same frame after gravity froze the piece | a landing frame with UP held and the turn counter due | no turn once the piece is frozen | high (not executed) | TetrisInvariant.FrozenPieceTurnsAgain | TetrisInvariant.FrozenPieceStaysFrozen |
| rayfork-invaders/src/invaders.c:230 | the wave advances on `enemiesKill == activeEnemies` (also lines 256 and 282) | one shot overlapping two enemies in the frame the kills reach the target (Invaders.DoubleHit) jumps the kills past it | advance on `>=` | high (not executed) | Invaders.WaveStuckAsWritten | Invaders.WaveAdvances |
| rayfork-commander/src/commander.c:288-365 | after a missile destroys a launcher, the explosion loop still checks it and can add 100 | any on-screen missile that lands on a launcher: the explosion it spawns there is centred on its position, so when the library's point-in-circle test counts a circle's centre as inside, that explosion alone makes it score | losing a launcher scores nothing | medium (not executed) | Commander.LauncherLossScoresAsWritten | Commander.LauncherLossScoresNothing |
| rayfork-gorilas/src/gorilas.c:356 | `100 / (100 - 30)` is integer division, giving 1 instead of about 1.43 | every `rand()` returns 0: the skyline ends at 705, and the right gorilla at x 760 finds no roof | widths that cover the 800-pixel screen | high (not executed) | Gorilas.RightGorillaAdriftAsWritten | Gorilas.GorillaFindsRoof |
