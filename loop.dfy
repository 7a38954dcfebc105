/** `animate` (script.js:241-255) and the event handlers around it. A frame
    runs the food pass, the obstacle pass and the snake step in that order
    (drawing between them changes nothing), then either asks for the next
    frame or, once the game is over, shows the retry screen and stops. An
    exception in a pass ends the frame before `requestAnimationFrame` is
    reached, which also stops the loop. */
module Loop {
  import opened Geometry
  import opened Entities
  import opened GameState
  import opened Feeding
  import opened Hazards
  import opened Chain

  /** How a frame ends: with `requestAnimationFrame(animate)`, with the
      retry screen, or with an exception. */
  datatype FrameEnd = Reschedule | RetryScreen | Aborted

  datatype FrameResult = FrameResult(world: World, end: FrameEnd)

  function Frame(w: World, bobs: seq<real>, spawns: seq<Spawn>, dir: (real, real) -> UnitHeading): FrameResult
    requires |w.foodItems| <= |bobs| && |w.foodItems| <= |spawns|
  {
    var fed := FoodPass(w, bobs, spawns);
    if fed.threw then FrameResult(fed.world, Aborted)
    else
      var hazards := ObstaclePass(fed.world);
      if hazards.threw then FrameResult(hazards.world, Aborted)
      else
        var moved := SnakeStep(hazards.world, dir);
        if moved.threw then FrameResult(moved.world, Aborted)
        else if moved.world.isGameOver then FrameResult(moved.world, RetryScreen)
        else FrameResult(moved.world, Reschedule)
  }

  /** A frame keeps the session invariant, never clears the game-over
      flag, and asks for another frame only if the game is still on. */
  lemma FrameKeepsInvariant(w: World, bobs: seq<real>, spawns: seq<Spawn>, dir: (real, real) -> UnitHeading)
    requires |w.foodItems| <= |bobs| && |w.foodItems| <= |spawns|
    requires Invariant(w)
    ensures var f := Frame(w, bobs, spawns, dir);
      && Invariant(f.world)
      && (w.isGameOver ==> f.world.isGameOver)
      && (f.end == Reschedule ==> !f.world.isGameOver)
  {
    var fed := FoodPass(w, bobs, spawns);
    FoodFromKeepsInvariant(w, 0, bobs, spawns);
    FoodFromCounts(w, 0, bobs, spawns);
    if !fed.threw {
      ObstaclePassKeepsInvariant(fed.world);
    }
  }

  /** A frame that starts after the game is over does not ask for another. */
  lemma GameOverStopsLoop(w: World, bobs: seq<real>, spawns: seq<Spawn>, dir: (real, real) -> UnitHeading)
    requires |w.foodItems| <= |bobs| && |w.foodItems| <= |spawns|
    requires w.isGameOver
    ensures Frame(w, bobs, spawns, dir).end != Reschedule
  {
    FoodFromCounts(w, 0, bobs, spawns);
    var fed := FoodPass(w, bobs, spawns);
    if !fed.threw && |fed.world.segments| > 0 {
      ObstaclesFromEffect(fed.world, 0);
    }
  }

  /** One frame's score and growth: score, segments and obstacles rise by
      the same count, speed by SPEED_STEP per point, the food count stays,
      and the pointer and the canvas size are untouched. */
  lemma FrameBookkeeping(w: World, bobs: seq<real>, spawns: seq<Spawn>, dir: (real, real) -> UnitHeading)
    requires |w.foodItems| <= |bobs| && |w.foodItems| <= |spawns|
    ensures var r := Frame(w, bobs, spawns, dir).world;
      var eaten := r.score - w.score;
      && 0 <= eaten <= |w.foodItems|
      && |r.foodItems| == |w.foodItems|
      && |r.segments| == |w.segments| + eaten
      && |r.obstacles| == |w.obstacles| + eaten
      && r.snakeSpeed == w.snakeSpeed + SPEED_STEP * eaten as real
      && r.mouse == w.mouse && r.width == w.width && r.height == w.height
  {
    FoodFromCounts(w, 0, bobs, spawns);
    var fed := FoodPass(w, bobs, spawns);
    if !fed.threw && |fed.world.segments| > 0 {
      ObstaclesFromEffect(fed.world, 0);
      var hazards := ObstaclePass(fed.world);
      if !hazards.world.isGameOver {
        SnakeStepEffect(hazards.world, dir);
      }
    }
  }

  /** A frame that reaches the snake step with the game still on leaves
      every segment after the head exactly SEGMENT_LENGTH from its
      predecessor. */
  lemma FrameKeepsLinks(w: World, bobs: seq<real>, spawns: seq<Spawn>, dir: (real, real) -> UnitHeading)
    requires |w.foodItems| <= |bobs| && |w.foodItems| <= |spawns|
    ensures var f := Frame(w, bobs, spawns, dir);
      f.end == Reschedule ==>
        forall k :: 1 <= k < |f.world.segments| ==>
          DistSq(f.world.segments[k - 1], f.world.segments[k]) == Sq(SEGMENT_LENGTH)
  {
    var fed := FoodPass(w, bobs, spawns);
    if !fed.threw && |fed.world.segments| > 0 {
      var hazards := ObstaclePass(fed.world);
      ObstaclesFromEffect(fed.world, 0);
      if !hazards.world.isGameOver {
        SnakeStepEffect(hazards.world, dir);
      }
    }
  }

  /** On a snake with a head no pass throws, so the frame ends at
      script.js:249-254: with the retry screen if the game is over, and
      otherwise with `requestAnimationFrame(animate)`. */
  lemma FrameRunsOn(w: World, bobs: seq<real>, spawns: seq<Spawn>, dir: (real, real) -> UnitHeading)
    requires |w.foodItems| <= |bobs| && |w.foodItems| <= |spawns|
    requires |w.segments| > 0
    ensures var f := Frame(w, bobs, spawns, dir);
      f.end == (if f.world.isGameOver then RetryScreen else Reschedule)
  {
    FoodFromNoThrow(w, 0, bobs, spawns);
    FoodFromCounts(w, 0, bobs, spawns);
    var fed := FoodPass(w, bobs, spawns);
    ObstaclesFromEffect(fed.world, 0);
    var hazards := ObstaclePass(fed.world);
    if !hazards.world.isGameOver {
      SnakeStepEffect(hazards.world, dir);
    }
  }

  /** A viewport with width plus height under 50 gives a snake without
      segments; its first frame bobs the first food item and dies with a
      TypeError, so no further frame is ever requested. */
  lemma EmptySnakeAbortsFrame(w: World, bobs: seq<real>, spawns: seq<Spawn>, dir: (real, real) -> UnitHeading)
    requires Invariant(w) && |w.segments| == 0
    requires |w.foodItems| <= |bobs| && |w.foodItems| <= |spawns|
    ensures Frame(w, bobs, spawns, dir)
         == FrameResult(w.(foodItems := w.foodItems[0 := Bob(w.foodItems[0], bobs[0])]), Aborted)
  {
    Feeding.EmptySnakeThrows(w, bobs, spawns);
  }

  /** The inputs the host delivers to the page. */
  datatype Event =
    | MouseMoved(x: real, y: real)
    | Resized(innerWidth: nat, innerHeight: nat)
    | FrameDue(bobs: seq<real>, spawns: seq<Spawn>)
    | Clicked

  /** The page: the game state, whether a call of `animate` is pending,
      and whether a click asked for `location.reload()`. */
  datatype Session = Session(world: World, scheduled: bool, reloadRequested: bool)

  /** A frame event carries a bob and a spawn for each of the five food
      items. */
  predicate Supplies(e: Event) {
    e.FrameDue? ==> FOOD_COUNT <= |e.bobs| && FOOD_COUNT <= |e.spawns|
  }

  /** The page after loading: `animate()` runs once at once (script.js:258),
      before any handler can fire, with `bobs` and `spawns` as the inputs
      of that first frame. It keeps the invariant and leaves a frame
      pending exactly when the game is on; a window whose width plus height
      is under 50 gives a snake without segments, whose first frame throws,
      so no frame is ever pending. */
  function Start(width: nat, height: nat, foods: seq<FoodDraw>, hazards: seq<ObstacleDraw>,
                 bobs: seq<real>, spawns: seq<Spawn>, dir: (real, real) -> UnitHeading): (s: Session)
    requires |foods| == FOOD_COUNT && |hazards| == INITIAL_OBSTACLES
    requires FOOD_COUNT <= |bobs| && FOOD_COUNT <= |spawns|
    ensures Invariant(s.world) && Settled(s) && !s.reloadRequested
    ensures s.world.width == width && s.world.height == height
    ensures width + height < PIXELS_PER_SEGMENT ==> !s.scheduled && s.world.segments == []
    ensures width + height >= PIXELS_PER_SEGMENT ==> (s.scheduled <==> !s.world.isGameOver)
  {
    var w := Initial(width, height, foods, hazards);
    FrameKeepsInvariant(w, bobs, spawns, dir);
    FrameBookkeeping(w, bobs, spawns, dir);
    var f := Frame(w, bobs, spawns, dir);
    assert |w.segments| > 0 ==> (f.end == Reschedule <==> !f.world.isGameOver) by {
      if |w.segments| > 0 {
        FrameRunsOn(w, bobs, spawns, dir);
      }
    }
    Session(f.world, f.end == Reschedule, false)
  }

  /** The effect of one event: the pointer and resize handlers
      (script.js:58-75), a pending frame (script.js:241-255; without a
      pending call nothing runs), and the click handler (script.js:234-238). */
  function Handle(s: Session, e: Event, dir: (real, real) -> UnitHeading): (r: Session)
    requires Invariant(s.world) && Supplies(e)
    ensures Invariant(r.world)
  {
    match e
    case MouseMoved(x, y) => s.(world := s.world.(mouse := Point(x, y)))
    case Resized(width, height) =>
      ResizeRebuildsChain(s.world, width, height);
      s.(world := Resize(s.world, width, height))
    case FrameDue(bobs, spawns) =>
      if !s.scheduled then s
      else
        FrameKeepsInvariant(s.world, bobs, spawns, dir);
        var f := Frame(s.world, bobs, spawns, dir);
        Session(f.world, f.end == Reschedule, s.reloadRequested)
    case Clicked => s.(reloadRequested := s.reloadRequested || s.world.isGameOver)
  }

  /** The session after a sequence of events. */
  function Replay(s: Session, events: seq<Event>, dir: (real, real) -> UnitHeading): (r: Session)
    requires Invariant(s.world) && forall k :: 0 <= k < |events| ==> Supplies(events[k])
    ensures Invariant(r.world)
    decreases |events|
  {
    if events == [] then s else Replay(Handle(s, events[0], dir), events[1..], dir)
  }

  /** What holds of a session at every moment: no frame is pending once
      the game is over, and a reload is asked for only after it is over. */
  predicate Settled(s: Session) {
    && (s.scheduled ==> !s.world.isGameOver)
    && (s.reloadRequested ==> s.world.isGameOver)
  }

  /** How a session may move on from `s` to `r`: the game-over flag is a
      one-way latch, a stopped loop stays stopped, a reload request stays,
      and the score never falls. */
  predicate Follows(s: Session, r: Session) {
    && (s.world.isGameOver ==> r.world.isGameOver)
    && (!s.scheduled ==> !r.scheduled)
    && (s.reloadRequested ==> r.reloadRequested)
    && s.world.score <= r.world.score
  }

  /** A pending frame on a snake with a head leaves the next frame pending
      exactly when the game is still on. */
  lemma FrameEventRunsOn(s: Session, e: Event, dir: (real, real) -> UnitHeading)
    requires Invariant(s.world) && Supplies(e)
    requires e.FrameDue? && s.scheduled && |s.world.segments| > 0
    ensures var r := Handle(s, e, dir); r.scheduled <==> !r.world.isGameOver
  {
    FrameRunsOn(s.world, e.bobs, e.spawns, dir);
  }

  lemma HandleSettles(s: Session, e: Event, dir: (real, real) -> UnitHeading)
    requires Invariant(s.world) && Supplies(e) && Settled(s)
    ensures Settled(Handle(s, e, dir)) && Follows(s, Handle(s, e, dir))
  {
    if e.FrameDue? && s.scheduled {
      FrameKeepsInvariant(s.world, e.bobs, e.spawns, dir);
      FrameBookkeeping(s.world, e.bobs, e.spawns, dir);
    }
  }

  lemma {:induction false} ReplaySettles(s: Session, events: seq<Event>, dir: (real, real) -> UnitHeading)
    requires Invariant(s.world) && Settled(s)
    requires forall k :: 0 <= k < |events| ==> Supplies(events[k])
    ensures Settled(Replay(s, events, dir)) && Follows(s, Replay(s, events, dir))
    decreases |events|
  {
    if events != [] {
      HandleSettles(s, events[0], dir);
      ReplaySettles(Handle(s, events[0], dir), events[1..], dir);
    }
  }

  /** Whatever the host delivers after the page has loaded and run its
      first frame, the food count stays five, there is one obstacle per
      point beyond the first three, speed is 0.1 plus 0.005 per point, and
      once the game is over it stays over, no frame runs again, and only
      then can a click ask for a reload. */
  lemma SessionGuarantees(width: nat, height: nat, foods: seq<FoodDraw>, hazards: seq<ObstacleDraw>,
                          bobs: seq<real>, spawns: seq<Spawn>,
                          events: seq<Event>, dir: (real, real) -> UnitHeading)
    requires |foods| == FOOD_COUNT && |hazards| == INITIAL_OBSTACLES
    requires FOOD_COUNT <= |bobs| && FOOD_COUNT <= |spawns|
    requires forall k :: 0 <= k < |events| ==> Supplies(events[k])
    ensures var r := Replay(Start(width, height, foods, hazards, bobs, spawns, dir), events, dir).world;
      && |r.foodItems| == FOOD_COUNT
      && r.score >= 0
      && |r.obstacles| == INITIAL_OBSTACLES + r.score
      && r.snakeSpeed == INITIAL_SPEED + SPEED_STEP * r.score as real
    ensures var s := Replay(Start(width, height, foods, hazards, bobs, spawns, dir), events, dir);
      Settled(s)
  {
    ReplaySettles(Start(width, height, foods, hazards, bobs, spawns, dir), events, dir);
  }

  /** The latch across any later events: a session whose game is over
      stays over and never runs a frame again. */
  lemma GameOverIsFinal(s: Session, events: seq<Event>, dir: (real, real) -> UnitHeading)
    requires Invariant(s.world) && Settled(s) && s.world.isGameOver
    requires forall k :: 0 <= k < |events| ==> Supplies(events[k])
    ensures var r := Replay(s, events, dir); r.world.isGameOver && !r.scheduled
  {
    ReplaySettles(s, events, dir);
  }
}
