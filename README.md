# Snake game model

A Dafny model of the game logic in `script.js`. This is a browser snake game drawn on a canvas:

- The head chases the mouse pointer.
- Each trailing segment stays 20 pixels behind the one before it.
- Five pink food items bob up and down. Eating one grows the snake, raises the score and the speed, and adds one spiked obstacle and one new food.
- Touching an obstacle ends the game.
- Once the game is over, a click reloads the page.

How the model is built:

- **Value layer.** The page's globals form one value, `GameState.World`. Each pass of a frame is a function over it that walks its array index by index, just as the source's loops do:
  - `Feeding.FoodFrom` for the food pass;
  - `Hazards.ObstaclesFrom` for the obstacle pass;
  - `Chain.ChainFrom` and `Chain.SnakeStep` for the snake.
- **Frames and sessions.** `Loop.Frame` chains the three passes as `animate` does. `Loop.Handle` and `Loop.Replay` run the event handlers over any sequence of host events.
- **Imperative layer.** `Snake.Game` is the same state as an object whose fields are updated in place. Six of its members are proved equal to the function for the same step, so the lemmas about the functions apply to them: the constructor (`GameState.Initial`), `OnResize` (`GameState.Resize`), `DrawFood` (`Feeding.FoodPass`), `DrawObstacles` (`Hazards.ObstaclePass`), `UpdateSnake` (`Chain.SnakeStep`) and `Animate` (`Loop.Frame`). `OnMouseMove` states its new state directly, and `OnClick` states when it reloads.

Behaviour of the code that the model keeps:

- **Resize discards growth.** A resize rebuilds the snake as `floor((width + height) / 50)` copies of the pointer, whatever its length was.
- **Follow rule.** A trailing segment is placed 20 pixels from its predecessor, along the line towards it. For two segments at (0, 0) and (30, 0), the second moves to (20, 0).
- **Spliced food skips a turn.** Eating splices the food array while `forEach` is walking it. The item that slides into the eaten slot is neither bobbed nor tested in that frame. The replacement pushed at the end is reached at the last index in the same frame only when the eaten item is not the last one and nothing after it is eaten. A later eat moves it down one slot, where it is passed over if that eat was at the second-to-last index. A replacement for the last item waits for the next frame.
- **Tiny windows throw.** When width plus height is below 50, the snake has no segments. The first frame, which runs as soon as the page loads, then throws a TypeError while reading the head, so the loop never reschedules.

## Model

| member | source | states |
|---|---|---|
| Geometry.TouchesIffDistanceBelow | script.js:137-143 | the collision predicate without a square root holds exactly when the Euclidean distance is below radius plus half the segment width |
| Geometry.CollisionScenarios | script.js:203-208 | thresholds are 17.5 for food and 37.5 for obstacles: (100,100) touches food at (105,100), (200,200) touches an obstacle at (210,205), and the exact thresholds do not touch |
| Geometry.Pursue | script.js:81-82 | the head's new squared distance to the pointer is the old one scaled by (1 - speed)^2 |
| Geometry.PursuitApproaches | script.js:81-82 | for 0 < speed < 1 the head gets strictly closer to a pointer it has not reached and never lands on it |
| Geometry.Follow | script.js:85-91 | a re-placed segment is exactly segmentLength (20) from its predecessor |
| Geometry.FollowStaysOnRay | script.js:87-91 | with a true atan2 the re-placed segment lies on the ray from its predecessor through its old position |
| Geometry.FollowCoincident | script.js:87-91 | a segment lying on its predecessor goes 20 to its left, since atan2(0, 0) = 0 |
| Geometry.FollowScenario | script.js:84-92 | segments at (0,0) and (30,0): the second moves to (20,0) |
| Entities.SegmentCount | script.js:10 | the segment count is floor((width + height) / 50), and it is at least one exactly when width + height >= 50 |
| GameState.Initial | script.js:6-55 | the load state has the window's size, 5 food items, 3 obstacles, score 0, speed 0.1, game not over, pointer at the centre, and SegmentCount copies of the pointer as the snake; it satisfies the session invariant |
| GameState.ResizeRebuildsChain | script.js:64-71 | a resize gives exactly SegmentCount copies of the pointer, changes only the canvas size and the snake, and keeps the invariant |
| Feeding.FoodFromCounts | script.js:127-169 | a food pass keeps the food count and adds as many segments and obstacles as points scored; speed rises 0.005 per point; no points without a head; nothing else changes |
| Feeding.FoodFromNoThrow | script.js:128-168 | on a snake with a head the food pass never throws |
| Feeding.FoodFromKeepsVisited | script.js:128-144 | items the walk has passed are never changed by later splices |
| Feeding.FoodFromGrowsAtTail | script.js:145-148 | old segments stay in place and every added segment is a copy of the old tail |
| Feeding.FoodFromSpawnsObstacles | script.js:151-159 | old obstacles stay and the k-th point scored appends the obstacle of the k-th random draw |
| Feeding.FoodFromKeepsInvariant | script.js:127-169 | the food pass keeps five food items, obstacles = 3 + score, speed = 0.1 + 0.005 * score |
| Feeding.FoodFromLastSlot | script.js:128-166 | after the walk, the last slot holds either the replacement drawn for the latest consumption or an item the head does not touch |
| Feeding.ReplacementTested | script.js:144-166 | the replacement pushed after an eat before the last slot is reached at the last slot (if nothing in between is eaten), bobbed by the last delta and tested: eaten in turn (score + 2, next replacement in its place) exactly when the head touches it |
| Feeding.ShiftedFoodSkipped | script.js:128-144 | the item that slides into a just-eaten slot ends the pass unchanged, neither bobbed nor tested |
| Feeding.EmptySnakeThrows | script.js:130-139 | on a snake without segments the pass bobs the first item and then throws |
| Feeding.EatScenario | script.js:143-166 | eating from score 0 gives score 1, speed 0.105, one more obstacle, five food items, and the tail duplicated |
| Hazards.ObstaclesFromEffect | script.js:172-211 | each obstacle's rotation grows by its rotationSpeed exactly once; the count is kept; the game is over iff it already was or the head touches some obstacle; nothing else changes |
| Hazards.EmptySnakeThrows | script.js:173-203 | on a snake without segments the pass turns the first obstacle and then throws |
| Hazards.ObstaclePassKeepsInvariant | script.js:172-212 | the obstacle pass keeps the invariant and never clears the game-over flag |
| Hazards.HitScenario | script.js:203-210 | a head at (200,200) with an obstacle at (210,205) ends the game |
| Chain.ChainFrom | script.js:84-92 | the loop from index i leaves earlier segments alone, re-places each later one by Follow from its predecessor's new position, and keeps every link at 20 |
| Chain.SnakeStepEffect | script.js:78-93 | a running step keeps the segment count, moves the head by Pursue, keeps every link at 20, and changes only the segments |
| Chain.GameOverFreezesSnake | script.js:79 | once the game is over the step changes nothing |
| Chain.ChainFollowsRays | script.js:84-92 | with a true atan2 each segment lies on the ray from its new predecessor through its old position |
| Loop.FrameKeepsInvariant | script.js:241-255 | a frame keeps the invariant, never clears game over, and reschedules only while the game is on |
| Loop.FrameRunsOn | script.js:241-254 | on a snake with a head a frame never aborts: it shows the retry screen if the game is over and otherwise calls requestAnimationFrame |
| Loop.FrameEventRunsOn | script.js:241-254 | a pending frame on a snake with a head leaves the next frame pending exactly when the game is on |
| Loop.GameOverStopsLoop | script.js:249-254 | a frame that starts with the game over never reschedules |
| Loop.FrameBookkeeping | script.js:241-247 | within a frame, score, segments and obstacles rise together, speed rises 0.005 per point, the food count is kept, and the pointer and canvas size are untouched |
| Loop.FrameKeepsLinks | script.js:243-245 | after a frame that reschedules, every segment is 20 from its predecessor |
| Loop.EmptySnakeAbortsFrame | script.js:241-243 | without segments the frame ends with the food pass's TypeError and does not reschedule |
| Loop.Start | script.js:241-258 | the load state followed at once by the first frame: valid, no reload requested; a window with width plus height under 50 leaves no segments and no pending frame, and any larger window leaves a frame pending exactly when the game is on |
| Loop.Handle | script.js:58-255 | every event (pointer, resize, due frame, click) keeps the session invariant |
| Loop.Replay | script.js:58-255 | every sequence of events keeps the session invariant |
| Loop.HandleSettles | script.js:234-254 | per event: game over is a latch, a stopped loop stays stopped, reload is requested only once the game is over, and the score never falls |
| Loop.ReplaySettles | script.js:234-254 | the same guarantees hold over any sequence of events |
| Loop.SessionGuarantees | script.js:10-258 | after load, the first frame and any events: five food items, obstacles = 3 + score, score >= 0, speed = 0.1 + 0.005 * score; no frame pending once the game is over; reload only after game over |
| Loop.GameOverIsFinal | script.js:249-254 | once the game is over it stays over, whatever follows, and no frame runs again |
| Snake.SegmentsAt | script.js:53-55 | the push loop builds exactly count copies of the point |
| Snake.Game.constructor | script.js:6-55 | the object starts in the load state and is valid |
| Snake.Game.OnMouseMove | script.js:58-61 | only the pointer changes, and validity is kept |
| Snake.Game.OnResize | script.js:64-75 | the new state is the resize of the old one, and validity is kept |
| Snake.Game.DrawFood | script.js:127-169 | the in-place walk with splice and pushes ends in exactly the food pass's state and exception outcome, and validity is kept |
| Snake.Game.DrawObstacles | script.js:172-212 | the in-place walk ends in exactly the obstacle pass's state and exception outcome, and validity is kept |
| Snake.Game.UpdateSnake | script.js:78-93 | the in-place chain update ends in exactly the snake step's state and exception outcome, and validity is kept |
| Snake.Game.Animate | script.js:241-255 | the in-place frame matches the frame function in state and ending (reschedule, retry screen or exception), and validity is kept |
| Snake.Game.OnClick | script.js:234-238 | a reload is requested exactly when the game is over |

## Left out

- **Drawing.** The model has no pixels:
  - `drawSnake`, `drawScore` and `showRetryScreen`;
  - the canvas calls inside `drawFood` and `drawObstacles`;
  - `clearRect` and the gradient set-up.

  Only the state changes they sit between are modelled.
- **Host calls as outcomes.** `requestAnimationFrame` and `location.reload` are outcomes of a step: the `Reschedule` ending and the reload flag. The model does not schedule frames or reload the page.
- **`Math.random` draws as inputs.** Their ranges (within the canvas, 0 to 360, 1 to 3, 0 to 2π) are not constrained, and none of the proved properties depends on them.
- **Bob deltas as inputs.** The bob `sin(Date.now() / 500 + offset) * 0.5` reads the clock, so its value is an input. The bound of 0.5 is not imposed.
- **Reals for floats.** Doubles are modelled as exact reals, so rounding is not modelled. The square root in the collision tests is replaced by the exactly equivalent comparison of squares.
- **Trigonometry.** `Math.atan2`, `Math.cos` and `Math.sin` are a parameter returning a unit vector. The ray and (20, 0) results assume that parameter behaves as atan2 (`Geometry.IsAtan2`).
- **Browser set-up.** DOM lookup and event-listener registration are not modelled, and neither is the order in which the browser interleaves events.
- **Loop.Handle:** a frame event is ignored unless a frame is pending. This models the single pending `requestAnimationFrame` callback, not the browser's frame timing.
