# Frogger game rules in Dafny

This project models the rule engine of a browser Frogger game written in
TypeScript with rxjs (`src/main.ts`). The frog crosses a 600-wide board.
Lanes of ufos, ghosts and snails move along it, four rows of logs float on a
river, and five crowns wait at the top. The whole game is a pure reducer:
`reduceState(state, event)` folds clock ticks and movement keys into an
immutable `State`. That reducer, everything it calls, and the fold that drives
it are modelled here as Dafny datatypes, functions and lemmas.

- `Seqs` holds the two list operations the rules use: `Map` and an
  order-preserving `Filter`, with their algebra.
- `Entities` holds the constants, the `Entity` and `Zone` records, the entity
  prototypes, and the lane builder `CreateEntityRow`. Ids are numbered
  through `NatToString`.
- `Collision` holds `IsColliding`. A target whose id starts with `log`
  collides only when the frog's horizontal centre lies over it; any other
  target uses the box-overlap rule.
- `Motion` holds one step of an autonomous entity (`MoveEntity`, with
  wrap-around), riding a log (`MoveFrogOnLog`) and `IncreaseSpeed`.
- `Control` holds the keys and `SwapKey`, the control reversal while the frog
  is confused.
- `Game` holds `State`, `InitialState`, the collision sets, `FrogDies`,
  `IncreaseDifficulty`, `CheckCollisions`, `Advance`/`TickState`,
  `UpdateFrogState` and `ReduceState`.
- `Rules` states each branch of the reducer as a lemma:
  - death, crown capture and normal play;
  - riding the first overlapping log;
  - a tick;
  - a movement key;
  - the initial board.
- `Invariants` holds facts every event preserves:
  - a validity predicate (confusion timer range, frog inside the vertical
    border, lanes on their tracks);
  - the set of crowns in play;
  - a highscore that never decreases;
  - lives lost one at a time.
- `Stream` models the rxjs pipeline `scan(reduceState, initialState)`,
  `takeWhile(!gameOver)`, `repeatWhen(restart)` as a fold over inputs. The
  fold yields the sequence of states shown on screen.

Positions, sizes and speeds are `real`. Time, lives, timers and the highscore
are `int`. The rules let lives and the death timer go below zero, so the model
lets them too.

Behaviours of the code that are easy to misread, all kept as written:

- **A speed of zero still wraps.** The wrap rule is chosen by
  `speed < 0`. A crown (speed 0) placed past the right edge would jump to
  `-width`, so `MoveEntity` is not the identity on still entities
  (`Motion.ZeroSpeedStillWraps`). The crowns are never moved by a tick in any
  case.
- **gameOver lags one tick behind.** It is recomputed only in the normal-play
  branch, from the lives held before the tick. A death that takes the last
  life leaves gameOver false (`Rules.LastDeathLeavesGameRunning`). The game
  ends on the next tick without a death or a crown only if lives is still
  exactly 0 then. A second death before that tick takes lives to -1
  (`Rules.DeathWithNoLivesLeft`), and from a negative count gameOver is never
  set again (`Rules.NegativeLivesNeverEnd`): without a restart the game goes
  on showing every event (`Stream.NegativeLivesShowEveryEvent`).
- **Touching a crown while dying duplicates it.** The death branch puts
  `crowns ++ crownsCollided ++ crownsTaken` back on the board. A touched crown
  is both in `crowns` and in `crownsCollided`, so it then appears twice
  (`Rules.DeathDuplicatesTouchedCrown`). Crowns and crownsTaken therefore keep
  the same *set* of crowns (`Invariants.ReduceStateKeepsCrownSet`). They do
  not keep the same multiset. Crown capture alone does keep the multiset
  (`Rules.CaptureMovesCrowns`).
- **The highscore lags.** It is updated from the number of crowns held
  *before* the tick, so a capture is scored on a later normal tick.
- **The confusion timer restarts from the previous flag.** `isConfusedTimer`
  restarts at 250 when the frog *was* confused before this tick. A ghost
  touched now only sets `isConfused`.
- **The log test is asymmetric.** It depends on which entity plays the frog
  (`Collision.LogRuleAsymmetric`). The box test is symmetric
  (`Collision.BoxRuleSymmetric`).

## Model

| member | source | states |
|---|---|---|
| Seqs.Map | src/main.ts:320-333 | the result has the input's length, and element i is f applied to element i (the lanes' `.map`) |
| Seqs.Filter | src/main.ts:413-423 | the result is no longer than the input, keeps only elements satisfying p, and keeps every element of the input that satisfies p |
| Seqs.FilterConcat | src/main.ts:430-435 | filtering a concatenation is the concatenation of the filtered parts, which makes the per-row log lists one filter over all logs |
| Seqs.FilterCount | src/main.ts:422-423 | filtering keeps every occurrence of an element satisfying p and none of the others |
| Seqs.FilterPartition | src/main.ts:422-423 | the crowns kept by `isColliding` and by its negation together hold every crown exactly as often as the original list |
| Seqs.FilterHead | src/main.ts:478 | the head of a non-empty filter result is the first element satisfying p, and no earlier element satisfies p |
| Seqs.FirstMatchHeadsFilter | src/main.ts:478 | the first element satisfying p is the head of the filter result |
| Entities.NatToString | src/main.ts:224 | the rendering is a non-empty string of decimal digits with no leading zero whose value (`Entities.DigitsValue`, read most significant digit first) is the number itself |
| Entities.NatToStringInjective | src/main.ts:224 | different numbers render differently, a corollary of reading the rendering back |
| Entities.StartXIsProduct | src/main.ts:225 | the start position used for member k is `(k - 1) * (spacing + width)` |
| Entities.StartXMonotone | src/main.ts:225 | with a non-negative stride, lane members start at x >= 0 and in increasing order of their number |
| Entities.RowMember | src/main.ts:222-227 | lane member k: the prototype with its id numbered k, at row height y and k - 1 strides from x = 0 (its shape is stated by Entities.CreateEntityRowSpec and Entities.CreateEntityRowIdsDistinct) |
| Entities.CreateEntityRowAux | src/main.ts:214-229 | the tail-recursive builder appends exactly n entities and keeps the accumulator as a prefix |
| Entities.CreateEntityRowAuxMembers | src/main.ts:214-229 | position \|entities\| + j of the result is the member numbered n - j |
| Entities.CreateEntityRow | src/main.ts:205-232 | builds a lane of n copies of a prototype; its contents are stated by Entities.CreateEntityRowSpec, its distinct ids by Entities.CreateEntityRowIdsDistinct, its placement on the track by Invariants.RowOnTrack |
| Entities.CreateEntityRowSpec | src/main.ts:205-232 | a lane has n entities; entity i is numbered n - i, its id is the prototype's id followed by that number, it sits at row height y and n - i - 1 strides from x = 0, and it keeps the prototype's size, speed and image |
| Entities.CreateEntityRowIdsDistinct | src/main.ts:222-224 | no two entities of one lane share an id |
| Collision.BoxRuleIsSharedPoint | src/main.ts:265-272 | for a non-log target, colliding holds iff the two closed rectangles share a point |
| Collision.LogRuleIsCentreOverLog | src/main.ts:256-263 | for a log target, colliding holds iff the frog's vertical centre line meets the log within the frog's height |
| Collision.BoxRuleSymmetric | src/main.ts:265-272 | the box rule gives the same answer whichever entity is the frog |
| Collision.LogRuleAsymmetric | src/main.ts:256-263 | the log rule can give different answers when the two entities are swapped |
| Collision.TouchingBoxesCollide | src/main.ts:265-272 | boxes that only touch at an edge collide |
| Collision.IsLogId | src/main.ts:256 | an id is a log's iff it starts with `log`; stated by Rules.LogIdByPrefix, Rules.NotLogId and Rules.RowLogIds |
| Collision.IsColliding | src/main.ts:246-273 | the two collision rules, chosen by the target's id; stated by Collision.BoxRuleIsSharedPoint, Collision.LogRuleIsCentreOverLog, Collision.BoxRuleSymmetric, Collision.LogRuleAsymmetric and Collision.TouchingBoxesCollide |
| Collision.CentreX | src/main.ts:258-259 | the frog's horizontal centre `x + width / 2`, used by the log rule and by the out-of-bounds test (376-377); stated by Collision.LogRuleIsCentreOverLog and Rules.FrogDiesIff |
| Motion.MoveEntity | src/main.ts:336-357 | only x changes, and an entity on its track stays on its track |
| Motion.MoveEntityCases | src/main.ts:336-357 | wrap rule case by case: non-negative speed past the right edge goes to -width; negative speed beyond -width (and x <= 0) goes to 600; otherwise x advances by speed |
| Motion.ZeroSpeedStillWraps | src/main.ts:340-355 | an entity with speed 0 past the right edge is moved to -width, so zero speed is not a fixed point |
| Motion.MovedTimesOnTrack | src/main.ts:336-357 | any number of steps keep an entity on its track and change only x |
| Motion.MoveFrogOnLog | src/main.ts:360-365 | only the frog's x changes, by exactly the log's speed |
| Motion.IncreaseSpeed | src/main.ts:395-400 | only speed changes; its sign is kept, its magnitude does not decrease, and an entity on its track stays on it |
| Control.SwapKey | src/main.ts:276-286 | unconfused, the key is kept; confused, it becomes the key on the same axis in the opposite direction |
| Control.SwapKeyInvolution | src/main.ts:276-286 | swapping twice under the same flag gives the original key |
| Game.InitialState | src/main.ts:295-314 | the board every game starts from; stated by Rules.InitialStateSpec and Invariants.InitialStateValid |
| Game.Advance | src/main.ts:320-333 | the part of a tick before collisions (clock and lane moves); stated by Rules.TickSpec |
| Game.Hits | src/main.ts:414-423 | the `isColliding(frog)` filter predicate; stated by Rules.HitsNonEmptyIff and Seqs.Filter |
| Game.Misses | src/main.ts:423 | its negation, which keeps the crowns not touched; stated by Seqs.FilterPartition and Rules.CaptureMovesCrowns |
| Game.RiverZoneCollided | src/main.ts:421 | the river zone in a one-element list if the frog overlaps it, else empty; stated by Rules.RiverZoneCollidedIff |
| Game.EnemiesCollided | src/main.ts:426 | the overlapping ufos followed by the overlapping snails; stated by Rules.FrogDiesIff and Rules.GhostsAreNotLethal |
| Game.LogsCollided | src/main.ts:430-435 | the overlapping logs of rows 1 to 4, row by row; stated by Rules.LogsCollidedInRowOrder |
| Game.Respawned | src/main.ts:448-452 | the frog moved back to (305, 545) with its other fields kept, as in both the death and the capture branch (463-467); stated by Rules.DeathBranch and Rules.CaptureBranch |
| Game.TickState | src/main.ts:320-333 | a tick: Game.Advance followed by Game.CheckCollisions; stated by Rules.TickSpec |
| Game.IsFrogInRiver | src/main.ts:368-372 | over the river zone with no log under the frog; stated by Rules.FrogDiesIff together with Rules.RiverZoneCollidedIff and Rules.HitsNonEmptyIff |
| Game.IsFrogOutOfBounds | src/main.ts:375-378 | the frog's horizontal centre off the canvas; stated by Rules.FrogDiesIff |
| Game.IncreaseDifficulty | src/main.ts:381-392 | every lane sped up by 1.1; stated by Rules.CaptureSpeedsUp and Invariants.IncreaseDifficultyValid |
| Game.FrogDies | src/main.ts:437-439 | the death condition; stated by Rules.FrogDiesIff and Rules.GhostsAreNotLethal |
| Game.CheckCollisions | src/main.ts:405-490 | the three branches of collision resolution; stated by Rules.DeathBranch, Rules.CaptureBranch, Rules.CaptureMovesCrowns, Rules.CaptureSpeedsUp, Rules.NormalBranch, Rules.RidingFirstLog, Invariants.CheckCollisionsValid and Invariants.CheckCollisionsKeepsCrownSet |
| Game.UpdateFrogState | src/main.ts:518-540 | the frog after a movement key; stated by Rules.MovementSpec and Rules.MovementStaysInBorder |
| Game.ReduceState | src/main.ts:543-559 | the reducer; stated by Rules.TickSpec, Rules.MovementSpec, Rules.NegativeLivesNeverEnd and the Invariants.ReduceState* lemmas |
| Rules.HitsNonEmptyIff | src/main.ts:413-423 | a lane filtered by `isColliding(frog)` is non-empty iff some entity of the lane overlaps the frog |
| Rules.LogsCollidedInRowOrder | src/main.ts:430-435 | the logs ridden are the overlapping logs of rows 1 to 4 in order |
| Rules.RiverZoneCollidedIff | src/main.ts:421 | the river-zone list is non-empty iff the frog overlaps the river zone |
| Rules.FrogDiesIff | src/main.ts:426-441 | the frog dies iff a ufo or a snail overlaps it, or it is over the river with no log under it, or its centre is off the canvas (covers `isFrogInRiver` 368-372 and `isFrogOutOfBounds` 375-378) |
| Rules.GhostsAreNotLethal | src/main.ts:426-441 | the ghost lane never affects whether the frog dies |
| Rules.DeathBranch | src/main.ts:445-458 | on death the frog respawns at (305, 545), lives drop by one, the death timer is 200, crownsTaken empties, crowns become crowns ++ touched ++ taken, and nothing else changes |
| Rules.DeathDuplicatesTouchedCrown | src/main.ts:455 | a crown touched while dying appears on the board once more than it appeared in crowns and crownsTaken together |
| Rules.CaptureBranch | src/main.ts:460-471 | on capture the frog respawns, the touched crowns are appended to crownsTaken, and nothing but the frog, the crowns and the lanes changes |
| Rules.CaptureMovesCrowns | src/main.ts:467-469 | on capture the remaining crowns are untouched ones, fewer than before, and the crown lists keep the same multiset |
| Rules.CaptureSpeedsUp | src/main.ts:381-392 | on capture every lane entity gets 1.1 times its speed |
| Rules.NormalBranch | src/main.ts:476-489 | in normal play the crowns stay; isConfused iff a ghost overlaps; the confusion timer restarts at 250 if previously confused, else counts down to no lower than 0; the death timer drops by one; highscore is max(old, 50 * crowns held before); gameOver iff lives were 0; the frog's y is kept and nothing else changes |
| Rules.NormalFrog | src/main.ts:478 | in normal play the new frog is the old one carried by the head of the overlapping logs of rows 1 to 4, or the old one if there is none |
| Rules.RidesFirstHit | src/main.ts:478 | carrying the frog by the head of the filtered logs leaves it in place when no log overlaps, and otherwise moves it by the speed of the first overlapping log |
| Rules.RidingFirstLog | src/main.ts:478 | in normal play the frog moves along x by the speed of the first overlapping log over rows 1 to 4, or stays put without one |
| Rules.TickSpec | src/main.ts:320-333 | a tick sets the time, moves every lane one step, leaves everything else, and then resolves collisions |
| Rules.LastDeathLeavesGameRunning | src/main.ts:445-458 | losing the last life sets lives to 0 and leaves gameOver false |
| Rules.DeathWithNoLivesLeft | src/main.ts:453 | a death while lives is already 0 sets lives to -1 and leaves gameOver false |
| Rules.NegativeLivesNeverEnd | src/main.ts:453-479 | from negative lives and a running game, every event keeps lives negative and gameOver false, since gameOver is set only when lives is exactly 0 |
| Rules.MovementSpec | src/main.ts:518-540 | a movement key changes only the frog; the key is reversed iff the confusion timer is positive; only the key's axis coordinate changes, by the frog's speed, clamped at the border on that side |
| Rules.MovementStaysInBorder | src/main.ts:518-540 | a frog inside the border stays inside it after any key |
| Rules.LogIdByPrefix | src/main.ts:256 | whether an id is a log's is decided by its first three characters |
| Rules.NotLogId | src/main.ts:256 | an id not starting with 'l' is not a log's |
| Rules.RowLogIds | src/main.ts:205-242 | every entity of a lane is a log iff its prototype is |
| Rules.InitialStateSpec | src/main.ts:295-314 | the initial board has 5 lives, 5 crowns at y = 5 with speed 0, none taken, the frog at (305, 545), lanes of 4/3/1 and 2/2/4/2 entities, every counter at 0, and the log rule applying to the logs only |
| Invariants.RowMemberOnTrack | src/main.ts:225 | a lane member numbered up to the last is on its track when the last member's start is |
| Invariants.RowOnTrack | src/main.ts:205-232 | a lane whose last member starts within its track is entirely on its track |
| Invariants.InitialStateValid | src/main.ts:295-314 | the initial board is valid |
| Invariants.IncreaseDifficultyValid | src/main.ts:381-392 | raising the difficulty keeps a valid state valid |
| Invariants.CheckCollisionsValid | src/main.ts:405-490 | collision resolution keeps a valid state valid |
| Invariants.ReduceStateValid | src/main.ts:543-559 | every event keeps a valid state valid |
| Invariants.SameMultisetSameSet | src/main.ts:467-469 | crown lists with equal multisets hold the same set of crowns |
| Invariants.DeathKeepsCrownSet | src/main.ts:455-456 | death keeps the set of crowns in play |
| Invariants.CheckCollisionsKeepsCrownSet | src/main.ts:445-489 | collision resolution keeps the set of crowns in play |
| Invariants.ReduceStateKeepsCrownSet | src/main.ts:543-559 | no event creates or loses a crown |
| Invariants.ReduceStateHighscoreMonotone | src/main.ts:487 | no event lowers the highscore |
| Invariants.ReduceStateLives | src/main.ts:453 | lives drop by exactly one on a tick where the frog dies, and never change otherwise |
| Stream.Step | src/main.ts:566-576 | one input shows at most one state, never a game-over state, and a running game that changes has not ended |
| Stream.Run | src/main.ts:566-576 | no more states are shown than inputs are given |
| Stream.StepValid | src/main.ts:566-576 | each step keeps a running game valid, unfinished and holding the initial crowns, and shows only the new state |
| Stream.RunShowsValidStates | src/main.ts:566-576 | every state shown is valid, not game-over, and holds exactly the initial board's crowns |
| Stream.StoppedIgnoresEvents | src/main.ts:573-574 | after the game has ended, events show nothing and change nothing |
| Stream.PlayingIgnoresRestart | src/main.ts:574 | the restart key during a game changes nothing |
| Stream.RestartStartsFresh | src/main.ts:574 | after the game has ended, the restart key starts again from the initial board |
| Stream.EventShown | src/main.ts:572-573 | an event shows the reduced state and continues unless that state is game-over, in which case nothing is shown and the game stops |
| Stream.HighscoresFromCons | src/main.ts:487 | prefixing a state with a high enough highscore keeps the shown highscores ordered |
| Stream.RunHighscoreMonotone | src/main.ts:566-576 | within one game the shown highscores never decrease and never fall below the starting one |
| Stream.StoppedShowsNothing | src/main.ts:573-574 | with no restart key, an ended game shows nothing more |
| Stream.NegativeLivesShowEveryEvent | src/main.ts:566-576 | with negative lives and no restart key, the game never stops: every input shows a state, each with negative lives and gameOver false |

## Left out

- The rxjs wiring itself, and the DOM rendering in `updateView`, are not modelled. Keyboard events, the `interval` clock and subscriptions are replaced by the `Stream.Input` sequence; the tick count arrives inside each `Tick` event.
- Stream.Step: a restart key pressed during a game is ignored. Before the first game over this matches `repeatWhen`, which listens for the restart key only after the source completes. After a restart, `repeatWhen` would re-subscribe on every further restart key, which could run several games at once. That concurrency is not modelled.
- Stream.PlayingIgnoresRestart: states the same simplification as Stream.Step, that a restart key during a game is dropped; the extra games `repeatWhen` could start after a restart are not modelled.
- `reduceState`'s final `else` branch (an event that is neither a tick nor a movement) is unreachable: `Game.Event` has only those two constructors.
- Image paths are kept as opaque strings. No asset is resolved.
- Arithmetic is exact (`real`). IEEE-754 rounding of positions and of the 1.1 speed multiplier is not modelled.
- Numbers are rendered in plain decimal at every size. JavaScript switches to exponent notation from 10^21, which lane numbers (at most 5) never reach.
- The lane spacing is passed to `CreateEntityRow` explicitly. The source looks it up in `CONSTANTS` under a key built from the upper-cased prototype id; that string lookup is not modelled.
- The `isFrogOnLog` field that the normal-play branch writes into the state is not part of the model. It is not among `State`'s declared fields and nothing reads it.
- `CANVAS_HEIGHT`, `SPACE_FROM_EDGE`, `TICK_RATE` and the other constants that the reducer never reads are omitted.
