/** The game's brick logic with replication: bricks carry ids, the server
    turns ball–brick contacts into `BrickBreak` broadcasts, and clients
    despawn the bricks named by the ids they receive. Also the network
    setup of the ball. */
module Game {
  import opened Base
  import opened Pigeon
  import opened Engine
  import opened Messages
  import opened NetTypes
  import opened NetComp
  import Brick

  /** A brick spawn command with the brick's id. The wall layout is the
      one of the earlier brick plugin. */
  datatype BrickSpawn = BrickSpawn(at: Brick.Spawn, id: u32)

  /** Spawn k has id k and sits at layout position k. */
  ghost predicate Numbered(bricks: seq<BrickSpawn>)
  {
    forall k :: 0 <= k < |bricks| ==>
      bricks[k].id as int == k && Brick.ValidSpawn(bricks[k].at) && Brick.SpawnIndex(bricks[k].at) == k
  }

  /** `setup_bricks`: the same 120 bricks as the earlier plugin, numbered
      0, 1, ..., 119 in spawn order by one counter shared by both walls. */
  method SetupBricks() returns (bricks: seq<BrickSpawn>)
    ensures |bricks| == 120
    ensures forall k :: 0 <= k < |bricks| ==> bricks[k].id as int == k
    ensures forall k :: 0 <= k < |bricks| ==>
              Brick.ValidSpawn(bricks[k].at) && Brick.SpawnIndex(bricks[k].at) == k
    ensures forall k :: 0 <= k < |bricks| ==> (bricks[k].at.side == Left <==> bricks[k].id < 60)
  {
    var id: u32 := 0;
    bricks := [];
    for r := 0 to 6
      invariant |bricks| == id as int == 10 * r
      invariant Numbered(bricks)
      invariant forall k :: 0 <= k < |bricks| ==> bricks[k].at.side == Left
    {
      for i := 1 to 11
        invariant |bricks| == id as int == 10 * r + i - 1
        invariant Numbered(bricks)
        invariant forall k :: 0 <= k < |bricks| ==> bricks[k].at.side == Left
      {
        bricks := bricks + [BrickSpawn(Brick.Spawn(Left, r, i), id)];
        id := id + 1;
      }
    }
    for r := 0 to 6
      invariant |bricks| == id as int == 60 + 10 * r
      invariant Numbered(bricks)
      invariant forall k :: 0 <= k < |bricks| ==> (bricks[k].at.side == Left <==> k < 60)
    {
      for i := 1 to 11
        invariant |bricks| == id as int == 60 + 10 * r + i - 1
        invariant Numbered(bricks)
        invariant forall k :: 0 <= k < |bricks| ==> (bricks[k].at.side == Left <==> k < 60)
      {
        bricks := bricks + [BrickSpawn(Brick.Spawn(Right, r, i), id)];
        id := id + 1;
      }
    }
  }

  /** The `NetEntity` id of the ball, the same on every peer. */
  const BallNetId: u64 := 5768696975200910899

  /** The ball's replication components, as `setup_game` builds them. */
  datatype BallNet = BallNet(net: NetEntity, velocity: NetComp, transform: NetComp)

  /** The ball is published to everyone by a peer with a server, and
      followed from the server by any other; velocity and transform share
      the direction. */
  function BallNetComponents(server: Option<ServerRes>): (b: BallNet)
    ensures b.net.id == BallNetId
    ensures b.velocity.dir == b.transform.dir
    ensures b.velocity.dir == (if server.Some? then To(All) else From(All))
  {
    var dir := if server.Some? then To(All) else From(All);
    BallNet(NewNetEntity(BallNetId), New(dir), New(dir))
  }

  /** Broadcast k names, by id, the brick of despawn k. */
  predicate Paired(broadcasts: seq<BrickBreak>, despawned: seq<Entity>, bricks: map<Entity, u32>)
  {
    |broadcasts| == |despawned| &&
    forall k :: 0 <= k < |despawned| ==> despawned[k] in bricks && broadcasts[k] == BrickBreak(bricks[despawned[k]])
  }

  /** Breaking one more brick keeps broadcasts and despawns paired. */
  lemma PairedExtend(broadcasts: seq<BrickBreak>, despawned: seq<Entity>, bricks: map<Entity, u32>, e: Entity)
    requires Paired(broadcasts, despawned, bricks) && e in bricks
    ensures Paired(broadcasts + [BrickBreak(bricks[e])], despawned + [e], bricks)
  {
  }

  /** The server branch of `break_bricks`: each broken brick is broadcast by
      its id and despawned; broadcast k names the brick of despawn k. */
  method BreakBricksServer(ball: Entity, bricks: map<Entity, u32>, events: seq<CollisionEvent>)
    returns (broadcasts: seq<BrickBreak>, despawned: seq<Entity>)
    ensures despawned == Brick.Despawns(ball, bricks.Keys, events)
    ensures Paired(broadcasts, despawned, bricks)
  {
    broadcasts, despawned := [], [];
    for i := 0 to |events|
      invariant despawned == Brick.Despawns(ball, bricks.Keys, events[..i])
      invariant Paired(broadcasts, despawned, bricks)
    {
      assert events[..i + 1][..i] == events[..i];
      if events[i].Stopped? {
        var e1, e2 := events[i].e1, events[i].e2;
        if e1 == ball && e2 in bricks {
          PairedExtend(broadcasts, despawned, bricks, e2);
          broadcasts := broadcasts + [BrickBreak(bricks[e2])];
          despawned := despawned + [e2];
        }
        if e2 == ball && e1 in bricks {
          PairedExtend(broadcasts, despawned, bricks, e1);
          broadcasts := broadcasts + [BrickBreak(bricks[e1])];
          despawned := despawned + [e1];
        }
      }
    }
    assert events[..|events|] == events;
  }

  /** The server breaks exactly the bricks that some stopped event pairs
      with the ball, in either order; nothing else, the ball included. */
  lemma ServerBreaksIff(ball: Entity, bricks: map<Entity, u32>, events: seq<CollisionEvent>, e: Entity)
    ensures e in Brick.Despawns(ball, bricks.Keys, events) <==>
            e in bricks && exists k :: 0 <= k < |events| && Brick.StoppedAgainstBall(events[k], ball, e)
  {
    Brick.DespawnedIffStoppedAgainstBall(ball, bricks.Keys, events, e);
  }

  /** The bricks a client despawns for a frame's received ids. */
  function ClientTargets(bricks: map<Entity, u32>, ids: seq<u32>): (t: set<Entity>)
    ensures forall e :: e in t <==> e in bricks && bricks[e] in ids
  {
    set e | e in bricks && bricks[e] in ids
  }

  /** The client branch of `break_bricks`: the query visits every brick, in
      an order the engine chooses, and despawns those whose id was received. */
  method BreakBricksClient(bricks: map<Entity, u32>, ids: seq<u32>) returns (despawned: set<Entity>)
    ensures despawned == ClientTargets(bricks, ids)
  {
    despawned := {};
    var todo := bricks.Keys;
    while todo != {}
      invariant todo <= bricks.Keys
      invariant forall e :: e in despawned <==> e in bricks.Keys - todo && bricks[e] in ids
      decreases todo
    {
      var e :| e in todo;
      if bricks[e] in ids {
        despawned := despawned + {e};
      }
      todo := todo - {e};
    }
  }

  /** The bricks left after despawning `gone`. */
  function Without(bricks: map<Entity, u32>, gone: set<Entity>): (rest: map<Entity, u32>)
    ensures rest.Keys == bricks.Keys - gone
    ensures forall e :: e in rest ==> rest[e] == bricks[e]
  {
    map e | e in bricks && e !in gone :: bricks[e]
  }

  /** Receiving the same ids again after they were applied despawns nothing:
      applying a brick-break event is idempotent. */
  lemma ClientApplyIdempotent(bricks: map<Entity, u32>, ids: seq<u32>)
    ensures ClientTargets(Without(bricks, ClientTargets(bricks, ids)), ids) == {}
  {
  }

  /** An id that names no brick has no effect. */
  lemma UnknownIdIgnored(bricks: map<Entity, u32>, ids: seq<u32>, x: u32)
    requires forall e :: e in bricks ==> bricks[e] != x
    ensures ClientTargets(bricks, ids + [x]) == ClientTargets(bricks, ids)
  {
  }

  /** Bricks whose id was not received are untouched. */
  lemma OtherBricksKept(bricks: map<Entity, u32>, ids: seq<u32>, e: Entity)
    requires e in bricks && bricks[e] !in ids
    ensures e in Without(bricks, ClientTargets(bricks, ids))
  {
  }

  /** `break_bricks`: the server branch whenever a server exists (`ball` is
      the single ball entity), else the client branch over the ids received
      this frame. */
  method BreakBricks(server: Option<ServerRes>, client: Option<seq<BrickBreak>>, ball: Entity,
                     bricks: map<Entity, u32>, events: seq<CollisionEvent>)
    returns (broadcasts: seq<BrickBreak>, despawned: seq<Entity>, clientDespawned: set<Entity>)
    ensures server.Some? ==> despawned == Brick.Despawns(ball, bricks.Keys, events) && clientDespawned == {}
    ensures server.Some? ==> Paired(broadcasts, despawned, bricks)
    ensures server.None? && client.Some? ==>
              broadcasts == [] && despawned == [] && clientDespawned == ClientTargets(bricks, IdsOf(client.value))
    ensures server.None? && client.None? ==> broadcasts == [] && despawned == [] && clientDespawned == {}
  {
    broadcasts, despawned, clientDespawned := [], [], {};
    if server.Some? {
      broadcasts, despawned := BreakBricksServer(ball, bricks, events);
    } else if client.Some? {
      var ids := IdsOf(client.value);
      clientDespawned := BreakBricksClient(bricks, ids);
    }
  }

  /** `recv::<BrickBreak>().map(|m| m.0).collect()`. */
  function IdsOf(msgs: seq<BrickBreak>): (ids: seq<u32>)
    ensures |ids| == |msgs|
    ensures forall k :: 0 <= k < |msgs| ==> ids[k] == msgs[k].id
  {
    if msgs == [] then [] else IdsOf(msgs[..|msgs| - 1]) + [msgs[|msgs| - 1].id]
  }
}
