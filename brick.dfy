/** The earlier brick plugin: the brick wall layout and the collision rule
    that breaks a brick when the ball stops touching it. */
module Brick {
  import opened Engine
  import opened Messages

  /** A brick spawn command: which wall, which column (the colour index,
      0 to 5) and which position in it (`slot`, 1 to 10). Brick positions
      are computed from these by float geometry, left out here. */
  datatype Spawn = Spawn(side: Team, column: nat, slot: nat)

  predicate ValidSpawn(s: Spawn)
  {
    s.column < 6 && 1 <= s.slot <= 10
  }

  /** The position of a spawn in issue order: left wall first, column by
      column, bottom to top within a column. */
  function SpawnIndex(s: Spawn): int
  {
    (if s.side == Left then 0 else 60) + 10 * s.column + s.slot - 1
  }

  /** `setup_bricks`: six columns of ten bricks on each side, in order. */
  method SetupBricks() returns (spawns: seq<Spawn>)
    ensures |spawns| == 120
    ensures forall k :: 0 <= k < |spawns| ==> ValidSpawn(spawns[k]) && SpawnIndex(spawns[k]) == k
  {
    spawns := [];
    for r := 0 to 6
      invariant |spawns| == 10 * r
      invariant forall k :: 0 <= k < |spawns| ==> ValidSpawn(spawns[k]) && SpawnIndex(spawns[k]) == k
    {
      for i := 1 to 11
        invariant |spawns| == 10 * r + i - 1
        invariant forall k :: 0 <= k < |spawns| ==> ValidSpawn(spawns[k]) && SpawnIndex(spawns[k]) == k
      {
        spawns := spawns + [Spawn(Left, r, i)];
      }
    }
    for r := 0 to 6
      invariant |spawns| == 60 + 10 * r
      invariant forall k :: 0 <= k < |spawns| ==> ValidSpawn(spawns[k]) && SpawnIndex(spawns[k]) == k
    {
      for i := 1 to 11
        invariant |spawns| == 60 + 10 * r + i - 1
        invariant forall k :: 0 <= k < |spawns| ==> ValidSpawn(spawns[k]) && SpawnIndex(spawns[k]) == k
      {
        spawns := spawns + [Spawn(Right, r, i)];
      }
    }
  }

  /** A valid spawn position is determined by its index, so a layout whose
      k-th spawn has index k issues every position at most once. */
  lemma SpawnIndexInjective(s: Spawn, t: Spawn)
    requires ValidSpawn(s) && ValidSpawn(t) && SpawnIndex(s) == SpawnIndex(t)
    ensures s == t
  {
  }

  /** The bricks one collision event despawns, in command order. */
  function EventDespawns(ball: Entity, bricks: set<Entity>, ev: CollisionEvent): seq<Entity>
  {
    match ev
    case Stopped(e1, e2) =>
      (if e1 == ball && e2 in bricks then [e2] else [])
      + (if e2 == ball && e1 in bricks then [e1] else [])
    case Started(_, _) => []
  }

  /** All despawn commands for a frame's events, in order. */
  function Despawns(ball: Entity, bricks: set<Entity>, events: seq<CollisionEvent>): seq<Entity>
  {
    if events == [] then []
    else Despawns(ball, bricks, events[..|events| - 1]) + EventDespawns(ball, bricks, events[|events| - 1])
  }

  /** `break_bricks`: despawn the brick side of every stopped ball–brick
      contact; the ball entity is the single one the ball query yields. */
  method BreakBricks(ball: Entity, bricks: set<Entity>, events: seq<CollisionEvent>)
    returns (despawned: seq<Entity>)
    ensures despawned == Despawns(ball, bricks, events)
  {
    despawned := [];
    for i := 0 to |events|
      invariant despawned == Despawns(ball, bricks, events[..i])
    {
      assert events[..i + 1][..i] == events[..i];
      match events[i]
      case Stopped(e1, e2) =>
        if e1 == ball && e2 in bricks {
          despawned := despawned + [e2];
        }
        if e2 == ball && e1 in bricks {
          despawned := despawned + [e1];
        }
      case _ =>
    }
    assert events[..|events|] == events;
  }

  /** `ev` is the end of a contact between the ball and `e`, in either order. */
  predicate StoppedAgainstBall(ev: CollisionEvent, ball: Entity, e: Entity)
  {
    ev.Stopped? && ((ev.e1 == ball && ev.e2 == e) || (ev.e2 == ball && ev.e1 == e))
  }

  /** An entity is despawned exactly when it is a brick and some stopped
      event pairs it with the ball, in either order. In particular only
      bricks are despawned, and `Started` events despawn nothing. */
  lemma {:induction false} DespawnedIffStoppedAgainstBall(ball: Entity, bricks: set<Entity>,
                                                          events: seq<CollisionEvent>, e: Entity)
    ensures e in Despawns(ball, bricks, events) <==>
            e in bricks && exists k :: 0 <= k < |events| && StoppedAgainstBall(events[k], ball, e)
  {
    if events != [] {
      var n := |events| - 1;
      DespawnedIffStoppedAgainstBall(ball, bricks, events[..n], e);
      assert forall k :: 0 <= k < n ==> events[..n][k] == events[k];
    }
  }

  /** Events other than `Stopped` never despawn anything. */
  lemma {:induction false} OnlyStoppedDespawns(ball: Entity, bricks: set<Entity>, events: seq<CollisionEvent>)
    requires forall k :: 0 <= k < |events| ==> events[k].Started?
    ensures Despawns(ball, bricks, events) == []
  {
    if events != [] {
      OnlyStoppedDespawns(ball, bricks, events[..|events| - 1]);
    }
  }
}
