/** The page script's globals as one object whose methods update them in
    place, as the event listeners and the animation callback do. Each method
    is proved to make exactly the transition module Rules describes. */
module Script {
  import opened Geometry
  import opened Obstacles
  import opened Rules

  class Game {
    // the `player` record
    var speed: int
    var score: int
    var active: bool
    var x: int
    var y: int
    // the `keys` map
    var keys: map<string, bool>
    // the obstacles in the play area
    var obstacles: seq<Obstacle>
    // whether startGameOnKeyPress is registered as a key-down listener
    var armed: bool
    // what the start screen shows
    var screen: Screen

    /** The globals as a value of Rules.State. */
    function View(): State
      reads this
    {
      State(speed, score, active, x, y, keys, obstacles, armed, screen)
    }

    /** The page after loading. */
    constructor ()
      ensures View() == Rules.Initial()
    {
      speed, score, active, x, y := DefaultSpeed, 0, false, 0, 0;
      keys := map[LeftKey := false, RightKey := false];
      obstacles := [];
      armed := true;
      screen := StartPrompt;
    }

    /** The click listener of a difficulty button. */
    method SelectDifficulty(d: Difficulty)
      modifies this
      ensures View() == Rules.SelectDifficulty(old(View()), d)
    {
      speed := SpeedOf(d);
    }

    /** A key-down event: startGameOnKeyPress if it is registered, then the
        listener that records the key. */
    method KeyDown(key: string, startX: int, area: Area, rolls: seq<SpawnRoll>)
      requires IsPoolRolls(rolls)
      modifies this
      ensures View() == Rules.KeyDown(old(View()), key, startX, area, rolls)
    {
      if armed {
        StartGameOnKeyPress(startX, area, rolls);
      }
      keys := keys[key := true];
    }

    /** The key-up listener. */
    method KeyUp(key: string)
      modifies this
      ensures View() == Rules.KeyUp(old(View()), key)
    {
      keys := keys[key := false];
    }

    method StartGameOnKeyPress(startX: int, area: Area, rolls: seq<SpawnRoll>)
      requires IsPoolRolls(rolls)
      modifies this
      ensures View() == Rules.StartGameOnKeyPress(old(View()), startX, area, rolls)
    {
      StartGame(startX, area, rolls);
      armed := false;
    }

    /** Clears the play area, resets the player and creates the pool, one
        obstacle per draw. */
    method StartGame(startX: int, area: Area, rolls: seq<SpawnRoll>)
      requires IsPoolRolls(rolls)
      modifies this
      ensures View() == Rules.StartGame(old(View()), startX, area, rolls)
    {
      screen := Hidden;
      obstacles := [];
      score := 0;
      active := true;
      x := startX;
      y := 0;
      for i := 0 to PoolSize
        invariant View() == old(View()).(screen := Hidden, score := 0, active := true, x := startX,
                                         y := 0, obstacles := obstacles)
        invariant obstacles == Spawn(area, rolls[..i])
      {
        CreateObstacle(area, rolls[i]);
        assert rolls[..i + 1] == rolls[..i] + [rolls[i]];
      }
      assert rolls[..PoolSize] == rolls;
    }

    /** Appends one new obstacle to the play area. */
    method CreateObstacle(area: Area, roll: SpawnRoll)
      requires IsSpawnRoll(roll)
      modifies this
      ensures View() == old(View()).(obstacles := old(obstacles) + [NewObstacle(area, roll)])
    {
      var kind := Kinds[RandomBelow(roll.kind, |Kinds|)];
      var top := area.height + RandomBelow(roll.depth, SpawnSpread);
      var left := RandomBelow(roll.left, area.width - ObstacleWidth);
      obstacles := obstacles + [Obstacle(kind, left, top)];
    }

    /** The animation callback: one frame of play. */
    method PlayGame(f: Frame)
      requires FrameFits(|obstacles|, f)
      modifies this
      ensures View() == Rules.Step(old(View()), f)
    {
      if active {
        MoveObstacles(f.area, f.cansat, f.rects, f.leftRolls);

        y := y + speed;

        if Held(keys, LeftKey) && x > 0 {
          x := x - speed;
        }
        if Held(keys, RightKey) && x < f.area.width - f.playerWidth {
          x := x + speed;
        }

        if y > f.area.height - f.playerHeight {
          GameOver();
          return;
        }

        score := score + 1;
      }
    }

    /** Moves every obstacle in turn, recycling those past the top exit, and
        calls gameOver for each one whose box overlaps the player's. */
    method MoveObstacles(area: Area, cansat: Rect, rects: seq<Rect>, leftRolls: seq<real>)
      requires |rects| == |obstacles| && |leftRolls| == |obstacles|
      requires forall k :: 0 <= k < |leftRolls| ==> IsRoll(leftRolls[k])
      modifies this
      ensures View() == Rules.MoveObstacles(old(View()), area, cansat, rects, leftRolls)
    {
      ghost var before := View();
      ghost var hit := false;
      var i := 0;
      while i < |obstacles|
        invariant 0 <= i <= |obstacles| == |before.obstacles|
        invariant forall k :: 0 <= k < i ==> obstacles[k] == Rise(before.obstacles[k], speed, area, leftRolls[k])
        invariant forall k :: i <= k < |obstacles| ==> obstacles[k] == before.obstacles[k]
        invariant hit <==> exists k :: 0 <= k < i && Overlaps(cansat, rects[k])
        invariant speed == before.speed && score == before.score && keys == before.keys
        invariant x == before.x && y == before.y
        invariant active == (before.active && !hit)
        invariant armed == (before.armed || hit)
        invariant screen == if hit then GameOverMessage(before.score) else before.screen
      {
        var o := obstacles[i];
        o := o.(y := o.y - speed);
        if o.y < TopExit {
          o := o.(y := area.height + ReentryDepth, left := RandomBelow(leftRolls[i], area.width - ObstacleWidth));
        }
        obstacles := obstacles[i := o];

        if Overlaps(cansat, rects[i]) {
          GameOver();
          hit := true;
        }
        i := i + 1;
      }
      assert obstacles == RiseAll(before.obstacles, speed, area, leftRolls);
    }

    /** Ends the run: stops play, shows the final score and registers the
        start listener again. */
    method GameOver()
      modifies this
      ensures View() == Rules.GameOver(old(View()))
    {
      active := false;
      screen := GameOverMessage(score);
      armed := true;
    }
  }
}
