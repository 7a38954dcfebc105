/** The game's records and fixed parameters: food items, spiked obstacles,
    the values `Math.random()` supplies when one is spawned, and the
    viewport-derived length of the snake. */
module Entities {

  /** Number of food items on the canvas (script.js:29). */
  const FOOD_COUNT: nat := 5
  /** Number of obstacles at start (script.js:38). */
  const INITIAL_OBSTACLES: nat := 3
  const FOOD_RADIUS: real := 10.0
  const FOOD_COLOR: string := "#ff69b4"
  /** The obstacle's outer spike radius, used as its collision radius. */
  const OBSTACLE_SIZE: real := 30.0
  const OBSTACLE_SPIKES: nat := 6
  const OBSTACLE_COLOR: string := "#8b0000"
  /** `snakeSpeed` at start (script.js:14) and its rise per food (script.js:150). */
  const INITIAL_SPEED: real := 0.1
  const SPEED_STEP: real := 0.005
  /** Canvas pixels of width plus height per segment (script.js:10, 67). */
  const PIXELS_PER_SEGMENT: nat := 50

  /** A food item; `offset` is the phase of its bobbing (script.js:29-35). */
  datatype Food = Food(x: real, y: real, radius: real, color: string, offset: real)

  /** A rotating spiked obstacle (script.js:38-46); `rotation` is in degrees. */
  datatype Obstacle = Obstacle(
    x: real, y: real, size: real, rotation: real, rotationSpeed: real,
    spikes: nat, color: string)

  /** The random fields of a new food item: `Math.random()` times the canvas
      width and height, and times 2 pi. */
  datatype FoodDraw = FoodDraw(x: real, y: real, offset: real)

  /** The random fields of a new obstacle: position as for food, rotation
      `Math.random() * 360` and rotation speed `Math.random() * 2 + 1`. */
  datatype ObstacleDraw = ObstacleDraw(x: real, y: real, rotation: real, rotationSpeed: real)

  /** What one consumption draws: the obstacle it adds and the food that
      replaces the eaten one (script.js:151-166). */
  datatype Spawn = Spawn(obstacle: ObstacleDraw, food: FoodDraw)

  function NewFood(d: FoodDraw): Food {
    Food(d.x, d.y, FOOD_RADIUS, FOOD_COLOR, d.offset)
  }

  function NewObstacle(d: ObstacleDraw): Obstacle {
    Obstacle(d.x, d.y, OBSTACLE_SIZE, d.rotation, d.rotationSpeed, OBSTACLE_SPIKES, OBSTACLE_COLOR)
  }

  /** `Math.floor((width + height) / 50)` (script.js:10, 67): the largest
      count whose 50-pixel share fits in width plus height. The snake has a
      head exactly when width plus height reaches 50. */
  function SegmentCount(width: nat, height: nat): (n: nat)
    ensures n * PIXELS_PER_SEGMENT <= width + height < (n + 1) * PIXELS_PER_SEGMENT
    ensures n >= 1 <==> width + height >= PIXELS_PER_SEGMENT
  {
    (width + height) / PIXELS_PER_SEGMENT
  }
}
