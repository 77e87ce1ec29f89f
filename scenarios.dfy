/** End-to-end replication across peers: one peer's pass publishes, the
    transport delivers within the frame, and the other peer's pass applies.
    Delivery here is ideal (nothing lost, order kept), which is the case in
    which the protocol promises convergence. */
module Scenarios {
  import opened Base
  import opened Pigeon
  import opened Engine
  import opened Messages
  import opened NetTypes
  import opened NetComp
  import opened Net
  import opened NetProperties
  import Game

  /** What client `cid` receives from the server's sends of one pass. */
  function DeliveredTo<M>(sent: seq<Outgoing<M>>, cid: CId): (inbox: ClientInbox<M>)
    ensures |inbox| <= |sent|
  {
    if sent == [] then []
    else DeliveredTo(sent[..|sent| - 1], cid) +
         match sent[|sent| - 1]
         case SendSpec(spec, m) => if Matches(spec, cid) then [m] else []
         case SendToServer(_) => []
  }

  /** What the server receives, tagged with the sender, from the sends of
      client `cid`'s pass. */
  function ReceivedFrom<M>(sent: seq<Outgoing<M>>, cid: CId): (inbox: ServerInbox<M>)
    ensures |inbox| <= |sent|
  {
    if sent == [] then []
    else ReceivedFrom(sent[..|sent| - 1], cid) +
         match sent[|sent| - 1]
         case SendToServer(m) => [(cid, m)]
         case SendSpec(_, _) => []
  }

  /** A server entity published with `To(spec)` reaches every client that
      `spec` matches: a following client entity with the same id takes the
      published value through both projections. */
  lemma PublishThenFollow<T, M>(serverEntity: EntityView<T>, serverInbox: ServerInbox<M>,
                                clientEntity: EntityView<T>, cid: CId, into: T -> M, from: M -> T)
    requires InQuery(serverEntity) && serverEntity.comp.value.dir.To?
    requires Matches(serverEntity.comp.value.dir.to, cid)
    requires InQuery(clientEntity) && clientEntity.comp.value.dir.From?
    requires clientEntity.net == serverEntity.net
    ensures var inbox := DeliveredTo(EntitySends(Some(serverInbox), None, serverEntity, into, from), cid);
            EntityAfter(None, Some(inbox), clientEntity, from).value == Some(from(into(serverEntity.value.value)))
  {
    var sent := EntitySends(Some(serverInbox), None, serverEntity, into, from);
    assert sent[..0] == [];
    var inbox := DeliveredTo(sent, cid);
    assert inbox == [NetCompMsg(serverEntity.net.value.id, into(serverEntity.value.value))];
    ClientLastWriterWins(clientEntity, inbox, from, 0);
  }

  /** The ball's transform, set up by a server and by a client as
      `setup_game` does, replicates exactly: a client's ball ends the frame
      where the server's ball is, provided that lies in the plane of play
      with the default scale (as a 2-D physics body's transform does). */
  lemma BallTransformReplicates(serverBall: Transform, clientBall: Transform,
                                serverInbox: ServerInbox<MyTransform>, cid: CId)
    requires serverBall.translation.z == 0.0 && serverBall.scale == DefaultTransform.scale
    ensures
      var id := Some(Game.BallNetComponents(None).net);
      var s := EntityView(id, Some(Game.BallNetComponents(Some(ServerRes)).transform), Some(serverBall));
      var c := EntityView(id, Some(Game.BallNetComponents(None).transform), Some(clientBall));
      var inbox := DeliveredTo(EntitySends(Some(serverInbox), None, s, ToMyTransform, FromMyTransform), cid);
      EntityAfter(None, Some(inbox), c, FromMyTransform).value == Some(serverBall)
  {
    var id := Some(Game.BallNetComponents(None).net);
    var s := EntityView(id, Some(Game.BallNetComponents(Some(ServerRes)).transform), Some(serverBall));
    var c := EntityView(id, Some(Game.BallNetComponents(None).transform), Some(clientBall));
    PublishThenFollow(s, serverInbox, c, cid, ToMyTransform, FromMyTransform);
    TransformRoundTrip(serverBall);
  }

  /** A relay through the server: client A publishes its entity to the
      server, the server's hub entity `ToFrom(Except(a), Only(a))` takes
      A's value and forwards it, and client B (not A) follows it. */
  lemma RelayThroughServer<T, M>(atA: EntityView<T>, a: CId, hub: EntityView<T>, atB: EntityView<T>, b: CId,
                                 into: T -> M, from: M -> T)
    requires a != b
    requires InQuery(atA) && atA.comp.value.dir.To?
    requires InQuery(hub) && hub.comp.value.dir == ToFrom(Except(a), Only(a))
    requires InQuery(atB) && atB.comp.value.dir.From?
    requires hub.net == atA.net && atB.net == atA.net
    ensures var toServer := ReceivedFrom(EntitySends(None, Some([]), atA, into, from), a);
            var toB := DeliveredTo(EntitySends(Some(toServer), None, hub, into, from), b);
            EntityAfter(None, Some(toB), atB, from).value == Some(from(into(from(into(atA.value.value)))))
  {
    var id := atA.net.value.id;
    var sentA := EntitySends(None, Some([]), atA, into, from);
    assert sentA[..0] == [];
    var toServer := ReceivedFrom(sentA, a);
    assert toServer == [(a, NetCompMsg(id, into(atA.value.value)))];
    ServerLastWriterWins(hub, toServer, None, from, Only(a), 0);
    var relayed := from(into(atA.value.value));
    var sentHub := EntitySends(Some(toServer), None, hub, into, from);
    assert sentHub == [SendSpec(Except(a), NetCompMsg(id, into(relayed)))];
    assert sentHub[..0] == [];
    var toB := DeliveredTo(sentHub, b);
    assert toB == [NetCompMsg(id, into(relayed))];
    ClientLastWriterWins(atB, toB, from, 0);
  }

  /** The relay never echoes: client A itself receives nothing from the hub. */
  lemma RelayDoesNotEcho<T, M>(hub: EntityView<T>, a: CId, inbox: ServerInbox<M>, into: T -> M, from: M -> T)
    requires InQuery(hub) && hub.comp.value.dir == ToFrom(Except(a), Only(a))
    ensures DeliveredTo(EntitySends(Some(inbox), None, hub, into, from), a) == []
  {
    var sent := EntitySends(Some(inbox), None, hub, into, from);
    assert sent[..0] == [];
  }
}
