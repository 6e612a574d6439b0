/** The obstacle pool: spawning an obstacle below the play area and moving
    (and recycling) obstacles on every frame. */
module Obstacles {

  datatype Kind = Cloud | Bird | Ufo

  /** The play area's size in whole pixels (offsetWidth / offsetHeight). */
  datatype Area = Area(width: nat, height: nat)

  /** An obstacle: its kind, its left offset in pixels and its vertical position `y`. */
  datatype Obstacle = Obstacle(kind: Kind, left: int, y: int)

  /** The three Math.random() draws made when an obstacle is created. */
  datatype SpawnRoll = SpawnRoll(kind: real, depth: real, left: real)

  /** Width of an obstacle, as the spawn and recycle formulas assume it. */
  const ObstacleWidth := 50
  /** New obstacles start up to this many pixels below the play area. */
  const SpawnSpread := 500
  /** An obstacle whose y drops below this has left through the top. */
  const TopExit := -50
  /** A recycled obstacle re-enters this many pixels below the play area. */
  const ReentryDepth := 50
  /** The kind list, indexed by the kind draw. */
  const Kinds := [Cloud, Bird, Ufo]

  /** A value Math.random() can return. */
  predicate IsRoll(r: real) {
    0.0 <= r < 1.0
  }

  predicate IsSpawnRoll(s: SpawnRoll) {
    IsRoll(s.kind) && IsRoll(s.depth) && IsRoll(s.left)
  }

  /** The product of two non-negative reals is non-negative. */
  lemma MulNonNeg(a: real, b: real)
    requires 0.0 <= a && 0.0 <= b
    ensures 0.0 <= a * b
  {
  }

  /** Math.floor(roll * n) for a draw `roll` of Math.random(): one of the n
      integers below n when n is positive, and between n and 0 otherwise. */
  function RandomBelow(roll: real, n: int): (k: int)
    requires IsRoll(roll)
    ensures n > 0 ==> 0 <= k < n
    ensures n <= 0 ==> n <= k <= 0
  {
    var p := roll * n as real;
    assert n > 0 ==> 0.0 <= p < n as real by {
      if n > 0 {
        MulNonNeg(roll, n as real);
        MulNonNeg(1.0 - roll, n as real);
        assert (1.0 - roll) * n as real > 0.0;
      }
    }
    assert n <= 0 ==> n as real <= p <= 0.0 by {
      if n <= 0 {
        MulNonNeg(roll, -(n as real));
        MulNonNeg(1.0 - roll, -(n as real));
      }
    }
    p.Floor
  }

  /** A random left offset for an obstacle, as the spawn and recycle code draw it. */
  function RandomLeft(area: Area, roll: real): (left: int)
    requires IsRoll(roll)
    ensures area.width > ObstacleWidth ==> 0 <= left <= area.width - ObstacleWidth - 1
    ensures area.width <= ObstacleWidth ==> area.width - ObstacleWidth <= left <= 0
  {
    RandomBelow(roll, area.width - ObstacleWidth)
  }

  /** createObstacle: a kind drawn from the three (the type Kind has no other
      value), a left offset inside the play area and a start below the bottom
      edge, at most 499 pixels deep. */
  function NewObstacle(area: Area, s: SpawnRoll): (o: Obstacle)
    requires IsSpawnRoll(s)
    ensures area.height <= o.y <= area.height + SpawnSpread - 1
    ensures area.width > ObstacleWidth ==> 0 <= o.left <= area.width - ObstacleWidth - 1
  {
    Obstacle(Kinds[RandomBelow(s.kind, |Kinds|)], RandomLeft(area, s.left),
             area.height + RandomBelow(s.depth, SpawnSpread))
  }

  /** The obstacles createObstacle appends, one per draw, in order. */
  function Spawn(area: Area, rolls: seq<SpawnRoll>): (obs: seq<Obstacle>)
    requires forall k :: 0 <= k < |rolls| ==> IsSpawnRoll(rolls[k])
    ensures |obs| == |rolls|
    ensures forall k :: 0 <= k < |rolls| ==> obs[k] == NewObstacle(area, rolls[k])
  {
    if rolls == [] then [] else [NewObstacle(area, rolls[0])] + Spawn(area, rolls[1..])
  }

  /** One obstacle's move in moveObstacles (the collision test aside): it
      rises by `speed`; if that takes it past the top exit it re-enters below
      the play area at a fresh left offset. Its kind never changes. */
  function Rise(o: Obstacle, speed: int, area: Area, roll: real): (r: Obstacle)
    requires IsRoll(roll)
    ensures r.kind == o.kind
    ensures TopExit <= r.y
    ensures o.y - speed >= TopExit ==> r.y == o.y - speed && r.left == o.left
    ensures o.y - speed < TopExit ==> r.y == area.height + ReentryDepth && r.left == RandomLeft(area, roll)
  {
    var moved := o.(y := o.y - speed);
    if moved.y < TopExit then
      moved.(y := area.height + ReentryDepth, left := RandomLeft(area, roll))
    else
      moved
  }

  /** Every obstacle of the pool moved once, in order; the pool keeps its size
      and each obstacle its kind. */
  function RiseAll(obs: seq<Obstacle>, speed: int, area: Area, rolls: seq<real>): (r: seq<Obstacle>)
    requires |rolls| == |obs|
    requires forall k :: 0 <= k < |rolls| ==> IsRoll(rolls[k])
    ensures |r| == |obs|
    ensures forall k :: 0 <= k < |obs| ==> r[k] == Rise(obs[k], speed, area, rolls[k])
    ensures forall k :: 0 <= k < |obs| ==> r[k].kind == obs[k].kind && TopExit <= r[k].y
  {
    if obs == [] then []
    else [Rise(obs[0], speed, area, rolls[0])] + RiseAll(obs[1..], speed, area, rolls[1..])
  }
}
