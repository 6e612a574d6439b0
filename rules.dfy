/** The game's state as a value, and every transition of script.js as a
    function of it: difficulty clicks, key presses and releases, starting a
    run, one animation frame of play, and game over. The class in module
    Script runs these same transitions in place. */
module Rules {
  import opened Geometry
  import opened Obstacles

  datatype Difficulty = Beginner | Advanced | Pro

  /** Player speed before any difficulty is chosen. */
  const DefaultSpeed := 5
  /** The largest speed any difficulty gives. */
  const MaxSpeed := 8
  /** Number of obstacles created at the start of a run. */
  const PoolSize := 3
  const LeftKey := "ArrowLeft"
  const RightKey := "ArrowRight"

  /** The speed table: beginner 3, advanced 5, pro 8 pixels per frame. */
  function SpeedOf(d: Difficulty): (speed: int)
    ensures 0 < speed <= MaxSpeed
    ensures d == Advanced <==> speed == DefaultSpeed
  {
    match d
    case Beginner => 3
    case Advanced => 5
    case Pro => 8
  }

  /** What the start screen shows: the initial prompt, nothing (hidden while
      a run is on), or the game-over message with the final score. */
  datatype Screen = StartPrompt | Hidden | GameOverMessage(finalScore: int)

  /** The script's globals: the `player` record, the `keys` map, the
      obstacles in the play area, whether the start-on-key-press listener is
      registered (`armed`) and the start screen. */
  datatype State = State(
    speed: int,
    score: int,
    active: bool,
    x: int,
    y: int,
    keys: map<string, bool>,
    obstacles: seq<Obstacle>,
    armed: bool,
    screen: Screen)

  /** What one animation frame reads from the page: the play area's size, the
      player's size, the player's bounding box and one bounding box per
      obstacle (as laid out by the browser), and one Math.random() draw per
      obstacle for the case it is recycled. */
  datatype Frame = Frame(
    area: Area,
    playerWidth: nat,
    playerHeight: nat,
    cansat: Rect,
    rects: seq<Rect>,
    leftRolls: seq<real>)

  predicate FrameFits(poolSize: int, f: Frame) {
    && |f.rects| == poolSize
    && |f.leftRolls| == poolSize
    && forall k :: 0 <= k < |f.leftRolls| ==> IsRoll(f.leftRolls[k])
  }

  predicate FramesFit(poolSize: int, frames: seq<Frame>) {
    forall k :: 0 <= k < |frames| ==> FrameFits(poolSize, frames[k])
  }

  predicate IsPoolRolls(rolls: seq<SpawnRoll>) {
    |rolls| == PoolSize && forall k :: 0 <= k < |rolls| ==> IsSpawnRoll(rolls[k])
  }

  /** The state when the page has loaded: default speed, no run, the start
      listener registered. The player's x and y are undefined in the page
      until the first run starts; they are 0 here. */
  function Initial(): State {
    State(DefaultSpeed, 0, false, 0, 0, map[LeftKey := false, RightKey := false], [], true, StartPrompt)
  }

  /** `keys.k`: a key counts as held when its last event was a key-down. */
  predicate Held(keys: map<string, bool>, k: string) {
    k in keys && keys[k]
  }

  /** A difficulty click sets the speed, at any time, even during a run. */
  function SelectDifficulty(s: State, d: Difficulty): State {
    s.(speed := SpeedOf(d))
  }

  /** gameOver: the run stops, the final score is shown and the start
      listener is registered again (registering it twice is the same as once). */
  function GameOver(s: State): State {
    s.(active := false, screen := GameOverMessage(s.score), armed := true)
  }

  /** startGame: clears the play area, resets score and height, places the
      player at `startX` (its offsetLeft) and creates a fresh pool. */
  function StartGame(s: State, startX: int, area: Area, rolls: seq<SpawnRoll>): State
    requires IsPoolRolls(rolls)
  {
    s.(screen := Hidden, score := 0, active := true, x := startX, y := 0,
       obstacles := Spawn(area, rolls))
  }

  /** startGameOnKeyPress: start, then unregister itself. */
  function StartGameOnKeyPress(s: State, startX: int, area: Area, rolls: seq<SpawnRoll>): State
    requires IsPoolRolls(rolls)
  {
    StartGame(s, startX, area, rolls).(armed := false)
  }

  /** A key-down event: the start listener runs if it is registered, and the
      key is recorded as held. The two listeners touch different state, so
      their order does not matter. */
  function KeyDown(s: State, key: string, startX: int, area: Area, rolls: seq<SpawnRoll>): State
    requires IsPoolRolls(rolls)
  {
    var started := if s.armed then StartGameOnKeyPress(s, startX, area, rolls) else s;
    started.(keys := started.keys[key := true])
  }

  /** A key-up event: the key is recorded as released. */
  function KeyUp(s: State, key: string): State {
    s.(keys := s.keys[key := false])
  }

  /** Some obstacle's box overlaps the player's box. */
  predicate Collides(cansat: Rect, rects: seq<Rect>) {
    exists k :: 0 <= k < |rects| && Overlaps(cansat, rects[k])
  }

  /** moveObstacles: every obstacle rises (and is recycled past the top);
      any obstacle whose box overlaps the player's calls gameOver, and the
      loop goes on. */
  function MoveObstacles(s: State, area: Area, cansat: Rect, rects: seq<Rect>, leftRolls: seq<real>): State
    requires |rects| == |s.obstacles| && |leftRolls| == |s.obstacles|
    requires forall k :: 0 <= k < |leftRolls| ==> IsRoll(leftRolls[k])
  {
    var moved := s.(obstacles := RiseAll(s.obstacles, s.speed, area, leftRolls));
    if Collides(cansat, rects) then GameOver(moved) else moved
  }

  /** The steering of playGame: two guards, not a clamp. Left moves when x is
      positive; right moves when the x left by the first guard is below
      `limit` (play-area width minus player width). */
  function Steer(x: int, speed: int, left: bool, right: bool, limit: int): int {
    var afterLeft := if left && x > 0 then x - speed else x;
    if right && afterLeft < limit then afterLeft + speed else afterLeft
  }

  /** The floor test: the player has fallen further than the play-area
      height minus its own height (strictly). */
  predicate BelowFloor(y: int, f: Frame) {
    y > f.area.height - f.playerHeight
  }

  /** playGame, one frame: obstacles move and are tested against the
      player's box from before this frame; the player falls by `speed` and
      steers; a floor exit ends the run without scoring; otherwise the score
      goes up by one, even if a collision ended the run in this frame.
      Nothing happens when no run is active. */
  function Step(s: State, f: Frame): (r: State)
    requires FrameFits(|s.obstacles|, f)
    ensures |r.obstacles| == |s.obstacles|
    ensures r.speed == s.speed && r.keys == s.keys
  {
    if !s.active then s
    else
      var moved := MoveObstacles(s, f.area, f.cansat, f.rects, f.leftRolls);
      var fallen := moved.(y := moved.y + moved.speed,
                           x := Steer(moved.x, moved.speed, Held(moved.keys, LeftKey),
                                      Held(moved.keys, RightKey), f.area.width - f.playerWidth));
      if BelowFloor(fallen.y, f) then GameOver(fallen) else fallen.(score := fallen.score + 1)
  }

  /** Frames played one after another, with no other event in between. */
  function Run(s: State, frames: seq<Frame>): (r: State)
    requires FramesFit(|s.obstacles|, frames)
    ensures |r.obstacles| == |s.obstacles|
    ensures r.speed == s.speed && r.keys == s.keys
    decreases |frames|
  {
    if frames == [] then s else Run(Step(s, frames[0]), frames[1..])
  }

  // ---------------------------------------------------------------------
  // The state machine

  /** The state machine's invariant: the start listener is registered exactly
      when no run is active, the speed is one the game can set, and an active
      run has the full pool of obstacles. */
  predicate Coherent(s: State) {
    && s.armed == !s.active
    && 0 < s.speed <= MaxSpeed
    && (s.active ==> |s.obstacles| == PoolSize)
  }

  lemma InitialCoherent()
    ensures Coherent(Initial())
    ensures !Initial().active && Initial().armed && Initial().speed == DefaultSpeed
  {
  }

  /** Every event keeps the invariant. */
  lemma EventsPreserveCoherent(s: State, d: Difficulty, key: string, startX: int, area: Area,
                               rolls: seq<SpawnRoll>, f: Frame)
    requires Coherent(s) && IsPoolRolls(rolls) && FrameFits(|s.obstacles|, f)
    ensures Coherent(SelectDifficulty(s, d))
    ensures Coherent(KeyDown(s, key, startX, area, rolls))
    ensures Coherent(KeyUp(s, key))
    ensures Coherent(Step(s, f))
  {
  }

  /** A key press starts a run exactly when the start listener is registered,
      and then leaves it unregistered; while a run is active (and the
      invariant holds) a key press only records the key. */
  lemma KeyDownStartsOnlyWhenArmed(s: State, key: string, startX: int, area: Area,
                                   rolls: seq<SpawnRoll>)
    requires IsPoolRolls(rolls)
    ensures var r := KeyDown(s, key, startX, area, rolls);
      && Held(r.keys, key)
      && (s.armed ==> r.active && !r.armed && r.score == 0 && r.y == 0 && r.x == startX
                      && r.screen == Hidden && r.obstacles == Spawn(area, rolls))
      && (!s.armed ==> r == s.(keys := s.keys[key := true]))
    ensures Coherent(s) && s.active ==> KeyDown(s, key, startX, area, rolls) == s.(keys := s.keys[key := true])
  {
  }

  /** startGame: score 0, active, at the top of the play area, a fresh pool of
      exactly three obstacles (none of the old ones) each spawned below the
      play area, and the speed left as it was. */
  lemma StartGameResets(s: State, startX: int, area: Area, rolls: seq<SpawnRoll>)
    requires IsPoolRolls(rolls)
    ensures var r := StartGame(s, startX, area, rolls);
      && r.score == 0 && r.active && r.y == 0 && r.x == startX
      && r.speed == s.speed && r.keys == s.keys
      && r.armed == s.armed && r.screen == Hidden
      && r.obstacles == Spawn(area, rolls)
      && |r.obstacles| == PoolSize
      && (forall k :: 0 <= k < PoolSize ==>
            area.height <= r.obstacles[k].y <= area.height + SpawnSpread - 1)
      && (area.width > ObstacleWidth ==> forall k :: 0 <= k < PoolSize ==>
            0 <= r.obstacles[k].left <= area.width - ObstacleWidth - 1)
  {
  }

  /** gameOver twice is gameOver once. */
  lemma GameOverIdempotent(s: State)
    ensures GameOver(GameOver(s)) == GameOver(s)
  {
  }

  // ---------------------------------------------------------------------
  // One frame

  /** Steering moves by `speed` in a direction only when that key is held and
      its guard holds; the right-hand guard sees the x after the left move;
      holding both keys can cancel out. */
  lemma SteerGuards(x: int, speed: int, left: bool, right: bool, limit: int)
    requires speed > 0
    ensures Steer(x, speed, left, right, limit) == x - speed ==> left && x > 0
    ensures Steer(x, speed, left, right, limit) == x + speed ==> right && x < limit
    ensures Steer(x, speed, left, right, limit) in {x - speed, x, x + speed}
    ensures left && x > 0 && !(right && x - speed < limit) ==> Steer(x, speed, left, right, limit) == x - speed
    ensures !(left && x > 0) && right && x < limit ==> Steer(x, speed, left, right, limit) == x + speed
    ensures left && right && 0 < x && x - speed < limit ==> Steer(x, speed, left, right, limit) == x
    ensures !left && !right ==> Steer(x, speed, left, right, limit) == x
  {
  }

  /** Steering keeps x in [1 - m, limit - 1 + m] for any speed up to m: the
      player can overshoot either edge, by less than the speed. */
  lemma SteerStaysNearEdges(x: int, speed: int, m: int, left: bool, right: bool, limit: int)
    requires 0 < speed <= m
    requires 1 - m <= x <= limit - 1 + m
    ensures 1 - m <= Steer(x, speed, left, right, limit) <= limit - 1 + m
  {
  }

  /** The guards are not a clamp: at any speed above 1, a left step from
      x = 1 leaves the player left of the play area, and a right step from
      one pixel short of the limit leaves it past the limit. */
  lemma SteerOvershoots(speed: int, limit: int)
    requires speed > 1
    ensures Steer(1, speed, true, false, limit) == 1 - speed < 0
    ensures Steer(limit - 1, speed, false, true, limit) == limit - 1 + speed > limit
  {
  }

  /** A frame with no active run changes nothing. */
  lemma StepWhenInactive(s: State, f: Frame)
    requires FrameFits(|s.obstacles|, f) && !s.active
    ensures Step(s, f) == s
  {
  }

  /** In an active frame the player falls by exactly `speed` and steers from
      its old x, every obstacle rises by exactly `speed` or is recycled, and
      the pool keeps its size and kinds. */
  lemma StepMoves(s: State, f: Frame)
    requires FrameFits(|s.obstacles|, f) && s.active
    ensures var r := Step(s, f);
      && r.y == s.y + s.speed
      && r.x == Steer(s.x, s.speed, Held(s.keys, LeftKey), Held(s.keys, RightKey),
                      f.area.width - f.playerWidth)
      && r.obstacles == RiseAll(s.obstacles, s.speed, f.area, f.leftRolls)
      && (forall k :: 0 <= k < |s.obstacles| ==> r.obstacles[k].kind == s.obstacles[k].kind)
      && (forall k :: 0 <= k < |s.obstacles| && s.obstacles[k].y - s.speed >= TopExit ==>
            r.obstacles[k].y == s.obstacles[k].y - s.speed)
      && (forall k :: 0 <= k < |s.obstacles| && s.obstacles[k].y - s.speed < TopExit ==>
            r.obstacles[k].y == f.area.height + ReentryDepth)
  {
  }

  /** How an active frame ends. The run goes on exactly when no obstacle
      collides and the player is not below the floor (y == height - player
      height is not below it). The score goes up by one unless the player is
      below the floor, so a collision alone still scores. A run that ends
      shows the score from before this frame and re-registers the start
      listener. */
  lemma StepOutcome(s: State, f: Frame)
    requires FrameFits(|s.obstacles|, f) && s.active
    ensures var r := Step(s, f);
      && (r.active <==> !Collides(f.cansat, f.rects) && !BelowFloor(s.y + s.speed, f))
      && r.score == (if BelowFloor(s.y + s.speed, f) then s.score else s.score + 1)
      && (!r.active ==> r.armed && r.screen == GameOverMessage(s.score))
      && (r.active ==> r.armed == s.armed && r.screen == s.screen)
  {
  }

  /** The floor test is strict: landing exactly on height - player height
      goes on, one pixel more ends the run. */
  lemma FloorExitIsStrict(s: State, f: Frame)
    requires FrameFits(|s.obstacles|, f) && s.active && !Collides(f.cansat, f.rects)
    ensures s.y + s.speed == f.area.height - f.playerHeight ==>
      Step(s, f).active && Step(s, f).score == s.score + 1
    ensures s.y + s.speed == f.area.height - f.playerHeight + 1 ==>
      !Step(s, f).active && Step(s, f).score == s.score
  {
  }

  // ---------------------------------------------------------------------
  // Many frames

  /** Once no run is active, any number of frames changes nothing. */
  lemma {:induction false} RunWhenInactive(s: State, frames: seq<Frame>)
    requires FramesFit(|s.obstacles|, frames) && !s.active
    ensures Run(s, frames) == s
    decreases |frames|
  {
    if frames != [] {
      StepWhenInactive(s, frames[0]);
      RunWhenInactive(s, frames[1..]);
    }
  }

  /** An active frame without collision or floor exit: the run goes on, one
      speed lower, one point richer. */
  lemma StepSurvives(s: State, f: Frame)
    requires FrameFits(|s.obstacles|, f) && s.active
    requires !Collides(f.cansat, f.rects) && !BelowFloor(s.y + s.speed, f)
    ensures var r := Step(s, f);
      r.active && r.y == s.y + s.speed && r.score == s.score + 1
  {
    StepMoves(s, f);
    StepOutcome(s, f);
  }

  /** With no collision and no floor exit, n frames move the player down by
      n * speed and add n to the score. */
  lemma {:induction false} RunDrift(s: State, frames: seq<Frame>)
    requires FramesFit(|s.obstacles|, frames) && s.active
    requires forall k :: 0 <= k < |frames| ==> !Collides(frames[k].cansat, frames[k].rects)
    requires forall k :: 0 <= k < |frames| ==> !BelowFloor(s.y + (k + 1) * s.speed, frames[k])
    ensures var r := Run(s, frames);
      r.active && r.y == s.y + |frames| * s.speed && r.score == s.score + |frames|
    decreases |frames|
  {
    if frames != [] {
      assert !BelowFloor(s.y + (0 + 1) * s.speed, frames[0]);
      StepSurvives(s, frames[0]);
      var next := Step(s, frames[0]);
      var rest := frames[1..];
      forall k | 0 <= k < |rest|
        ensures !BelowFloor(next.y + (k + 1) * next.speed, rest[k])
      {
        assert rest[k] == frames[k + 1];
        assert !BelowFloor(s.y + (k + 1 + 1) * s.speed, frames[k + 1]);
        assert (k + 1 + 1) * s.speed == (k + 1) * s.speed + s.speed;
      }
      RunDrift(next, rest);
      assert (|rest| + 1) * s.speed == |rest| * s.speed + s.speed;
    }
  }

  /** From the start of a run, n frames without collision or floor exit leave
      the player at y = n * speed with score n. */
  lemma RunFromStart(s: State, startX: int, area: Area, rolls: seq<SpawnRoll>, frames: seq<Frame>)
    requires IsPoolRolls(rolls)
    requires FramesFit(PoolSize, frames)
    requires forall k :: 0 <= k < |frames| ==> !Collides(frames[k].cansat, frames[k].rects)
    requires forall k :: 0 <= k < |frames| ==> !BelowFloor((k + 1) * s.speed, frames[k])
    ensures var r := Run(StartGame(s, startX, area, rolls), frames);
      r.active && r.y == |frames| * s.speed && r.score == |frames|
  {
    var start := StartGame(s, startX, area, rolls);
    forall k | 0 <= k < |frames|
      ensures !BelowFloor(start.y + (k + 1) * start.speed, frames[k])
    {
    }
    RunDrift(start, frames);
  }
}
