/** The gameplay half of `drawFood` (script.js:127-169): each food item
    bobs, and one the head touches is eaten, which grows the snake, raises
    score and speed and spawns one obstacle and one replacement food.

    `forEach` walks indices 0 .. len-1 of the live array. Eating splices
    the item out and pushes its replacement, so the length stays the same:
    every index is visited once and the item that slides into the eaten
    slot is passed over this frame. A pushed replacement is visited at the
    last slot only when the eaten item was not the last one and nothing
    after it is eaten (ReplacementTested); a replacement for the last item
    waits for the next frame. FoodFrom walks the index the same way. */
module Feeding {
  import opened Geometry
  import opened Entities
  import opened GameState

  /** The bob of script.js:130; the delta `sin(Date.now() / 500 + offset) * 0.5`
      is an input because it reads the clock. */
  function Bob(f: Food, delta: real): Food {
    f.(y := f.y + delta)
  }

  /** The head touches the food item (script.js:138-143). */
  predicate Eats(head: Point, f: Food) {
    Touches(head, Point(f.x, f.y), f.radius)
  }

  /** The bookkeeping of one consumption (script.js:144-166). */
  function Eat(w: World, i: nat, s: Spawn): World
    requires i < |w.foodItems| && |w.segments| > 0
  {
    w.(foodItems := w.foodItems[..i] + w.foodItems[i + 1..] + [NewFood(s.food)],
       segments := w.segments + [w.segments[|w.segments| - 1]],
       score := w.score + 1,
       snakeSpeed := w.snakeSpeed + SPEED_STEP,
       obstacles := w.obstacles + [NewObstacle(s.obstacle)])
  }

  /** The rest of the walk from index `i`: `bobs[i]` is the delta applied
      at index `i`, and `spawns` lists the random draws of the
      consumptions still to come, in order. */
  function FoodFrom(w: World, i: nat, bobs: seq<real>, spawns: seq<Spawn>): Run
    requires i <= |w.foodItems| <= |bobs| && |w.foodItems| <= i + |spawns|
    decreases |w.foodItems| - i
  {
    if i == |w.foodItems| then Run(w, false)
    else
      var food := Bob(w.foodItems[i], bobs[i]);
      var bobbed := w.(foodItems := w.foodItems[i := food]);
      if |w.segments| == 0 then Run(bobbed, true)
      else if Eats(w.segments[0], food) then FoodFrom(Eat(bobbed, i, spawns[0]), i + 1, bobs, spawns[1..])
      else FoodFrom(bobbed, i + 1, bobs, spawns)
  }

  /** One food pass of a frame. */
  function FoodPass(w: World, bobs: seq<real>, spawns: seq<Spawn>): Run
    requires |w.foodItems| <= |bobs| && |w.foodItems| <= |spawns|
  {
    FoodFrom(w, 0, bobs, spawns)
  }

  /** What the walk does, counted in `eaten`, the points it scores: the
      food count is unchanged, the snake gains one segment and the
      obstacles one entry per point, speed rises by SPEED_STEP per point,
      and the game-over flag, the pointer and the canvas are untouched. */
  lemma {:induction false} FoodFromCounts(w: World, i: nat, bobs: seq<real>, spawns: seq<Spawn>)
    requires i <= |w.foodItems| <= |bobs| && |w.foodItems| <= i + |spawns|
    ensures var r := FoodFrom(w, i, bobs, spawns).world;
      var eaten := r.score - w.score;
      && 0 <= eaten <= |w.foodItems| - i
      && (|w.segments| == 0 ==> eaten == 0)
      && |r.foodItems| == |w.foodItems|
      && |r.segments| == |w.segments| + eaten
      && |r.obstacles| == |w.obstacles| + eaten
      && r.snakeSpeed == w.snakeSpeed + SPEED_STEP * eaten as real
      && r == w.(segments := r.segments, foodItems := r.foodItems, obstacles := r.obstacles,
                 score := r.score, snakeSpeed := r.snakeSpeed)
    decreases |w.foodItems| - i
  {
    if i < |w.foodItems| && |w.segments| > 0 {
      var food := Bob(w.foodItems[i], bobs[i]);
      var bobbed := w.(foodItems := w.foodItems[i := food]);
      if Eats(w.segments[0], food) {
        FoodFromCounts(Eat(bobbed, i, spawns[0]), i + 1, bobs, spawns[1..]);
      } else {
        FoodFromCounts(bobbed, i + 1, bobs, spawns);
      }
    }
  }

  /** On a snake with a head the walk never throws: every index reaches
      the end of the loop body. */
  lemma {:induction false} FoodFromNoThrow(w: World, i: nat, bobs: seq<real>, spawns: seq<Spawn>)
    requires i <= |w.foodItems| <= |bobs| && |w.foodItems| <= i + |spawns|
    requires |w.segments| > 0
    ensures !FoodFrom(w, i, bobs, spawns).threw
    decreases |w.foodItems| - i
  {
    if i < |w.foodItems| {
      var food := Bob(w.foodItems[i], bobs[i]);
      var bobbed := w.(foodItems := w.foodItems[i := food]);
      if Eats(w.segments[0], food) {
        FoodFromNoThrow(Eat(bobbed, i, spawns[0]), i + 1, bobs, spawns[1..]);
      } else {
        FoodFromNoThrow(bobbed, i + 1, bobs, spawns);
      }
    }
  }

  /** The items the walk has passed stay as they are: a later splice only
      moves items behind the cursor. */
  lemma {:induction false} FoodFromKeepsVisited(w: World, i: nat, bobs: seq<real>, spawns: seq<Spawn>)
    requires i <= |w.foodItems| <= |bobs| && |w.foodItems| <= i + |spawns|
    ensures var r := FoodFrom(w, i, bobs, spawns).world;
      |r.foodItems| == |w.foodItems| && r.foodItems[..i] == w.foodItems[..i]
    decreases |w.foodItems| - i
  {
    if i < |w.foodItems| && |w.segments| > 0 {
      var food := Bob(w.foodItems[i], bobs[i]);
      var bobbed := w.(foodItems := w.foodItems[i := food]);
      var next := if Eats(w.segments[0], food) then Eat(bobbed, i, spawns[0]) else bobbed;
      var rest := if Eats(w.segments[0], food) then spawns[1..] else spawns;
      FoodFromKeepsVisited(next, i + 1, bobs, rest);
      var r := FoodFrom(next, i + 1, bobs, rest).world;
      assert r.foodItems[..i] == r.foodItems[..i + 1][..i];
    }
  }

  /** Growth: the old segments stay in place and every segment added is a
      copy of the old tail (script.js:145-148). */
  lemma {:induction false} FoodFromGrowsAtTail(w: World, i: nat, bobs: seq<real>, spawns: seq<Spawn>)
    requires i <= |w.foodItems| <= |bobs| && |w.foodItems| <= i + |spawns|
    ensures var r := FoodFrom(w, i, bobs, spawns).world;
      && |w.segments| <= |r.segments|
      && r.segments[..|w.segments|] == w.segments
      && (forall k :: |w.segments| <= k < |r.segments| ==> r.segments[k] == w.segments[|w.segments| - 1])
    decreases |w.foodItems| - i
  {
    FoodFromCounts(w, i, bobs, spawns);
    if i < |w.foodItems| && |w.segments| > 0 {
      var food := Bob(w.foodItems[i], bobs[i]);
      var bobbed := w.(foodItems := w.foodItems[i := food]);
      if Eats(w.segments[0], food) {
        var next := Eat(bobbed, i, spawns[0]);
        FoodFromGrowsAtTail(next, i + 1, bobs, spawns[1..]);
        var r := FoodFrom(next, i + 1, bobs, spawns[1..]).world;
        assert r.segments[..|w.segments|] == r.segments[..|next.segments|][..|w.segments|];
        forall k | |w.segments| <= k < |r.segments|
          ensures r.segments[k] == w.segments[|w.segments| - 1]
        {
          if k < |next.segments| {
            assert r.segments[k] == r.segments[..|next.segments|][k];
          }
        }
      } else {
        FoodFromGrowsAtTail(bobbed, i + 1, bobs, spawns);
      }
    }
  }

  /** The old obstacles stay in place and the k-th point scored appends the
      obstacle drawn for the k-th consumption (script.js:151-159). */
  lemma {:induction false} FoodFromSpawnsObstacles(w: World, i: nat, bobs: seq<real>, spawns: seq<Spawn>)
    requires i <= |w.foodItems| <= |bobs| && |w.foodItems| <= i + |spawns|
    ensures var r := FoodFrom(w, i, bobs, spawns).world;
      var eaten := r.score - w.score;
      && 0 <= eaten <= |spawns|
      && |r.obstacles| == |w.obstacles| + eaten
      && r.obstacles[..|w.obstacles|] == w.obstacles
      && (forall k :: 0 <= k < eaten ==> r.obstacles[|w.obstacles| + k] == NewObstacle(spawns[k].obstacle))
    decreases |w.foodItems| - i
  {
    FoodFromCounts(w, i, bobs, spawns);
    if i < |w.foodItems| && |w.segments| > 0 {
      var food := Bob(w.foodItems[i], bobs[i]);
      var bobbed := w.(foodItems := w.foodItems[i := food]);
      if Eats(w.segments[0], food) {
        var next := Eat(bobbed, i, spawns[0]);
        FoodFromSpawnsObstacles(next, i + 1, bobs, spawns[1..]);
        var r := FoodFrom(next, i + 1, bobs, spawns[1..]).world;
        assert r.obstacles[..|w.obstacles|] == r.obstacles[..|next.obstacles|][..|w.obstacles|];
        assert r.obstacles[|w.obstacles|] == r.obstacles[..|next.obstacles|][|w.obstacles|];
        forall k | 1 <= k < r.score - w.score
          ensures r.obstacles[|w.obstacles| + k] == NewObstacle(spawns[k].obstacle)
        {
          assert r.obstacles[|next.obstacles| + (k - 1)] == NewObstacle(spawns[1..][k - 1].obstacle);
        }
      } else {
        FoodFromSpawnsObstacles(bobbed, i + 1, bobs, spawns);
      }
    }
  }

  /** The pass keeps the session invariant, on the normal path and on the
      TypeError path alike. */
  lemma {:induction false} FoodFromKeepsInvariant(w: World, i: nat, bobs: seq<real>, spawns: seq<Spawn>)
    requires i <= |w.foodItems| <= |bobs| && |w.foodItems| <= i + |spawns|
    requires Invariant(w)
    ensures Invariant(FoodFrom(w, i, bobs, spawns).world)
    decreases |w.foodItems| - i
  {
    if i < |w.foodItems| {
      var food := Bob(w.foodItems[i], bobs[i]);
      var bobbed := w.(foodItems := w.foodItems[i := food]);
      assert Invariant(bobbed);
      if |w.segments| > 0 {
        if Eats(w.segments[0], food) {
          var next := Eat(bobbed, i, spawns[0]);
          assert Invariant(next);
          FoodFromKeepsInvariant(next, i + 1, bobs, spawns[1..]);
        } else {
          FoodFromKeepsInvariant(bobbed, i + 1, bobs, spawns);
        }
      }
    }
  }

  /** Passing over after a splice: when the item at index `i` is eaten and
      another follows it, that one slides into slot `i`, which the walk has
      left behind, and ends the pass exactly as it was: neither bobbed nor
      tested. */
  lemma ShiftedFoodSkipped(w: World, i: nat, bobs: seq<real>, spawns: seq<Spawn>)
    requires i + 1 < |w.foodItems| <= |bobs| && |w.foodItems| <= i + |spawns|
    requires |w.segments| > 0 && Eats(w.segments[0], Bob(w.foodItems[i], bobs[i]))
    ensures var r := FoodFrom(w, i, bobs, spawns).world;
      |r.foodItems| == |w.foodItems| && r.foodItems[i] == w.foodItems[i + 1]
  {
    var food := Bob(w.foodItems[i], bobs[i]);
    var next := Eat(w.(foodItems := w.foodItems[i := food]), i, spawns[0]);
    FoodFromKeepsVisited(next, i + 1, bobs, spawns[1..]);
    var r := FoodFrom(next, i + 1, bobs, spawns[1..]).world;
    assert r.foodItems[i] == r.foodItems[..i + 1][i];
  }

  /** What the last slot holds when the walk is over: either the
      replacement pushed by the latest consumption, which the walk has not
      reached, or an item the head does not touch. */
  lemma {:induction false} FoodFromLastSlot(w: World, i: nat, bobs: seq<real>, spawns: seq<Spawn>)
    requires i < |w.foodItems| <= |bobs| && |w.foodItems| <= i + |spawns| && |w.segments| > 0
    ensures var r := FoodFrom(w, i, bobs, spawns).world;
      var n := |w.foodItems|;
      var eaten := r.score - w.score;
      && |r.foodItems| == n
      && ((1 <= eaten <= |spawns| && r.foodItems[n - 1] == NewFood(spawns[eaten - 1].food))
          || !Eats(w.segments[0], r.foodItems[n - 1]))
    decreases |w.foodItems| - i
  {
    var n := |w.foodItems|;
    var food := Bob(w.foodItems[i], bobs[i]);
    var bobbed := w.(foodItems := w.foodItems[i := food]);
    if Eats(w.segments[0], food) {
      var next := Eat(bobbed, i, spawns[0]);
      assert next.segments[0] == w.segments[0] && next.score == w.score + 1;
      if i + 1 < n {
        FoodFromLastSlot(next, i + 1, bobs, spawns[1..]);
        FoodFromCounts(next, i + 1, bobs, spawns[1..]);
        var r := FoodFrom(next, i + 1, bobs, spawns[1..]).world;
        if 1 <= r.score - next.score {
          assert spawns[1..][r.score - next.score - 1] == spawns[r.score - w.score - 1];
        }
      } else {
        assert next.foodItems[n - 1] == NewFood(spawns[0].food);
      }
    } else if i + 1 < n {
      FoodFromLastSlot(bobbed, i + 1, bobs, spawns);
    }
  }

  /** The walk's passage over items it does not eat, from `j` up to the
      last slot: each is bobbed by the delta of its index. */
  function BobUntil(items: seq<Food>, bobs: seq<real>, j: nat, last: nat): (r: seq<Food>)
    requires j <= last < |items| <= |bobs|
    ensures |r| == |items| && r[last] == items[last]
    decreases last - j
  {
    if j == last then items else BobUntil(items[j := Bob(items[j], bobs[j])], bobs, j + 1, last)
  }

  lemma {:induction false} FoodFromPassesOver(v: World, j: nat, bobs: seq<real>, spawns: seq<Spawn>)
    requires j < |v.foodItems| <= |bobs| && |v.foodItems| <= j + |spawns| && |v.segments| > 0
    requires forall k :: j <= k < |v.foodItems| - 1 ==> !Eats(v.segments[0], Bob(v.foodItems[k], bobs[k]))
    ensures FoodFrom(v, j, bobs, spawns)
         == FoodFrom(v.(foodItems := BobUntil(v.foodItems, bobs, j, |v.foodItems| - 1)), |v.foodItems| - 1, bobs, spawns)
    decreases |v.foodItems| - j
  {
    if j < |v.foodItems| - 1 {
      var next := v.(foodItems := v.foodItems[j := Bob(v.foodItems[j], bobs[j])]);
      FoodFromPassesOver(next, j + 1, bobs, spawns);
    }
  }

  /** The replacement pushed at script.js:160-166 when an item before the
      last slot is eaten is reached by the walk at the last slot, provided
      nothing in between is eaten: it is bobbed by the last delta and
      tested, and eaten in turn exactly when the head touches it. */
  lemma ReplacementTested(w: World, i: nat, bobs: seq<real>, spawns: seq<Spawn>)
    requires i + 1 < |w.foodItems| <= |bobs| && |w.foodItems| <= i + |spawns| && |w.segments| > 0
    requires Eats(w.segments[0], Bob(w.foodItems[i], bobs[i]))
    requires forall k :: i < k < |w.foodItems| - 1 ==> !Eats(w.segments[0], Bob(w.foodItems[k + 1], bobs[k]))
    ensures var r := FoodFrom(w, i, bobs, spawns).world;
      var n := |w.foodItems|;
      var refill := Bob(NewFood(spawns[0].food), bobs[n - 1]);
      && |r.foodItems| == n
      && (Eats(w.segments[0], refill) ==> r.score == w.score + 2 && r.foodItems[n - 1] == NewFood(spawns[1].food))
      && (!Eats(w.segments[0], refill) ==> r.score == w.score + 1 && r.foodItems[n - 1] == refill)
  {
    var n := |w.foodItems|;
    var bobbed := w.(foodItems := w.foodItems[i := Bob(w.foodItems[i], bobs[i])]);
    var next := Eat(bobbed, i, spawns[0]);
    assert next.segments[0] == w.segments[0];
    forall k | i < k < n - 1
      ensures !Eats(next.segments[0], Bob(next.foodItems[k], bobs[k]))
    {
      assert next.foodItems[k] == w.foodItems[k + 1];
    }
    assert next.foodItems[n - 1] == NewFood(spawns[0].food);
    FoodFromPassesOver(next, i + 1, bobs, spawns[1..]);
    var u := next.(foodItems := BobUntil(next.foodItems, bobs, i + 1, n - 1));
    assert u.foodItems[n - 1] == NewFood(spawns[0].food);
  }

  /** On a snake without segments the pass stops at the first item, after
      bobbing it, with the TypeError of reading `segments[0].x`. */
  lemma EmptySnakeThrows(w: World, bobs: seq<real>, spawns: seq<Spawn>)
    requires |w.segments| == 0 && 0 < |w.foodItems| <= |bobs| && |w.foodItems| <= |spawns|
    ensures FoodPass(w, bobs, spawns) == Run(w.(foodItems := w.foodItems[0 := Bob(w.foodItems[0], bobs[0])]), true)
  {
  }

  /** The consumption of script.js:144-166 on a session state: the count
      of food stays five, the snake gains one segment equal to its old
      tail, one obstacle is added, score and speed rise together. A head at
      (100, 100) eats an unmoved food at (105, 100). */
  lemma EatScenario(w: World, i: nat, s: Spawn)
    requires Invariant(w) && i < |w.foodItems| && |w.segments| > 0
    requires w.score == 0 && w.segments[0] == Point(100.0, 100.0)
    requires w.foodItems[i].x == 105.0 && w.foodItems[i].y == 100.0
    ensures Eats(w.segments[0], Bob(w.foodItems[i], 0.0))
    ensures var r := Eat(w, i, s);
      && r.score == 1 && r.snakeSpeed == 0.105
      && |r.foodItems| == FOOD_COUNT && |r.obstacles| == |w.obstacles| + 1
      && r.segments == w.segments + [w.segments[|w.segments| - 1]]
  {
  }
}
