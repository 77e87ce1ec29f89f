/** The game's message types, the event table every peer builds, and the
    reduced wire forms of the transform and velocity components. */
module Messages {
  import opened Base
  import opened Pigeon
  import opened Engine

  /** The two sides of the field. Declared next to the game logic in the
      original; kept here because the messages refer to it and the game
      logic refers to the messages. */
  datatype Team = Left | Right

  /** The connection request a client sends. */
  datatype Connection = Connection(name: string)

  function NewConnection(name: string): (c: Connection)
    ensures c.name == name
  {
    Connection(name)
  }

  /** Sent to the other peers when a player joins. */
  datatype ConnectionBroadcast = ConnectionBroadcast(name: string, cid: CId)

  function NewConnectionBroadcast(name: string, cid: CId): (b: ConnectionBroadcast)
    ensures b.name == name && b.cid == cid
  {
    ConnectionBroadcast(name, cid)
  }

  /** Sent to the other peers when a player leaves. */
  datatype DisconnectBroadcast = DisconnectBroadcast(cid: CId)

  datatype RejectReason = MaxPlayersReached

  /** The server's answer to a connection request. `existing` is the name of
      the first player already in the lobby, if any. */
  datatype Response = Accepted(cid: CId, existing: Option<string>) | Rejected(reason: RejectReason)

  datatype StartGame = StartGame
  datatype GameWin = GameWin(winner: Team)
  datatype BrickBreak = BrickBreak(id: u32)

  /** The identity of each registrable message type: the five event types
      above, and the per-component wrapper `NetCompMsg<M>` of the
      replication plugin, one per wire type `M` (named by `wire`). */
  datatype MsgType =
    | ConnectionBroadcastType
    | DisconnectBroadcastType
    | StartGameType
    | BrickBreakType
    | GameWinType
    | NetCompMsgType(wire: string)

  /** `get_table`: registers the five event types over TCP, in a fixed
      order. None of the registrations can hit a duplicate, so none of the
      `unwrap`s can abort. */
  method GetTable() returns (table: MsgTable<MsgType>)
    ensures fresh(table) && table.Valid()
    ensures table.entries == [(ConnectionBroadcastType, TCP), (DisconnectBroadcastType, TCP),
                              (StartGameType, TCP), (BrickBreakType, TCP), (GameWinType, TCP)]
  {
    table := new MsgTable<MsgType>();
    var r := table.Register(ConnectionBroadcastType, TCP);
    assert r == Pass;
    r := table.Register(DisconnectBroadcastType, TCP);
    assert r == Pass;
    r := table.Register(StartGameType, TCP);
    assert r == Pass;
    r := table.Register(BrickBreakType, TCP);
    assert r == Pass;
    r := table.Register(GameWinType, TCP);
    assert r == Pass;
  }

  /** The networked reduction of a transform: x/y translation and rotation. */
  datatype MyTransform = MyTransform(translation: Vec2, rotation: Quat)

  /** `From<Transform> for MyTransform`. */
  function ToMyTransform(o: Transform): (m: MyTransform)
    ensures m.translation == Vec2(o.translation.x, o.translation.y)
    ensures m.rotation == o.rotation
  {
    MyTransform(Vec2(o.translation.x, o.translation.y), o.rotation)
  }

  /** `From<MyTransform> for Transform`: z is 0, scale is the default. */
  function FromMyTransform(o: MyTransform): (t: Transform)
    ensures t.translation == Vec3(o.translation.x, o.translation.y, 0.0)
    ensures t.rotation == o.rotation
    ensures t.scale == DefaultTransform.scale
  {
    DefaultTransform.(translation := Vec3(o.translation.x, o.translation.y, 0.0), rotation := o.rotation)
  }

  /** Wire form, to transform, back to wire form loses nothing. */
  lemma MyTransformRoundTrip(m: MyTransform)
    ensures ToMyTransform(FromMyTransform(m)) == m
  {
  }

  /** A transform survives the trip through the wire form exactly when it
      lies in the z = 0 plane and has the default scale. */
  lemma TransformRoundTrip(t: Transform)
    ensures FromMyTransform(ToMyTransform(t)) == t <==>
            t.translation.z == 0.0 && t.scale == DefaultTransform.scale
  {
  }

  /** The networked reduction of a velocity: linear x/y only. */
  datatype MyVelocity = MyVelocity(linear: Vec2)

  /** `From<Velocity> for MyVelocity`. */
  function ToMyVelocity(o: Velocity): (m: MyVelocity)
    ensures m.linear == Vec2(o.linear.x, o.linear.y)
  {
    MyVelocity(Vec2(o.linear.x, o.linear.y))
  }

  /** `From<MyVelocity> for Velocity`: linear z is 0, angular is the default. */
  function FromMyVelocity(o: MyVelocity): (v: Velocity)
    ensures v.linear == Vec3(o.linear.x, o.linear.y, 0.0)
    ensures v.angular == DefaultVelocity.angular
  {
    DefaultVelocity.(linear := Vec3(o.linear.x, o.linear.y, 0.0))
  }

  lemma MyVelocityRoundTrip(m: MyVelocity)
    ensures ToMyVelocity(FromMyVelocity(m)) == m
  {
  }

  lemma VelocityRoundTrip(v: Velocity)
    ensures FromMyVelocity(ToMyVelocity(v)) == v <==>
            v.linear.z == 0.0 && v.angular == DefaultVelocity.angular
  {
  }
}
