/** The component-replication pass `network_comp_sys` and its registration
    with the app. One pass runs per frame for every wire type `M`: it reads
    the messages of that type received this frame and, entity by entity,
    overwrites followed components and publishes authoritative ones. */
module Net {
  import opened Base
  import opened Pigeon
  import opened NetTypes
  import opened NetComp
  import opened Messages

  /** One entity as a pass for the component type `T` sees it: its
      `NetEntity`, its `NetComp<T, M>` marker and its `T` component, each
      of which it may or may not carry. */
  datatype EntityView<T> = EntityView(net: Option<NetEntity>, comp: Option<NetComp>, value: Option<T>)

  /** The pass's query matches exactly the entities carrying all three. */
  predicate InQuery<T>(e: EntityView<T>)
  {
    e.net.Some? && e.comp.Some? && e.value.Some?
  }

  /** What a server has received this frame: sender and envelope. */
  type ServerInbox<M> = seq<(CId, NetCompMsg<M>)>

  /** What a client has received this frame; its only peer is the server. */
  type ClientInbox<M> = seq<NetCompMsg<M>>

  /** A send issued by the pass: `send_spec` on a server, `send` on a client. */
  datatype Outgoing<M> = SendSpec(spec: CIdSpec, msg: NetCompMsg<M>) | SendToServer(msg: NetCompMsg<M>)

  /** The position of the last element of `xs` satisfying `p`, as
      `iter().filter(p).last()` selects it. */
  function LastWhere<X>(xs: seq<X>, p: X -> bool): (r: Option<nat>)
    ensures r.Some? ==> r.value < |xs| && p(xs[r.value])
    ensures r.Some? ==> forall j :: r.value < j < |xs| ==> !p(xs[j])
    ensures r.None? <==> forall j :: 0 <= j < |xs| ==> !p(xs[j])
    decreases |xs|
  {
    if |xs| == 0 then None
    else if p(xs[|xs| - 1]) then Some(|xs| - 1)
    else LastWhere(xs[..|xs| - 1], p)
  }

  /** A server-side message is taken for entity `id` when `spec` accepts its
      sender and it carries that id. */
  predicate ServerAccepts<M>(m: (CId, NetCompMsg<M>), spec: CIdSpec, id: u64)
  {
    Matches(spec, m.0) && m.1.id == id
  }

  /** The position of the last message the server takes for `id` from
      `spec`: the `filter(..).last()` of the server branch. */
  function ServerPick<M>(msgs: ServerInbox<M>, spec: CIdSpec, id: u64): (r: Option<nat>)
    ensures r.Some? ==> r.value < |msgs| && ServerAccepts(msgs[r.value], spec, id)
    ensures r.Some? ==> forall j :: r.value < j < |msgs| ==> !ServerAccepts(msgs[j], spec, id)
    ensures r.None? <==> forall j :: 0 <= j < |msgs| ==> !ServerAccepts(msgs[j], spec, id)
  {
    LastWhere(msgs, (m: (CId, NetCompMsg<M>)) => ServerAccepts(m, spec, id))
  }

  /** The position of the last message a client has received for `id`. */
  function ClientPick<M>(msgs: ClientInbox<M>, id: u64): (r: Option<nat>)
    ensures r.Some? ==> r.value < |msgs| && msgs[r.value].id == id
    ensures r.Some? ==> forall j :: r.value < j < |msgs| ==> msgs[j].id != id
    ensures r.None? <==> forall j :: 0 <= j < |msgs| ==> msgs[j].id != id
  {
    LastWhere(msgs, (m: NetCompMsg<M>) => m.id == id)
  }

  /** The payload of the last message the server takes for `id` from `spec`. */
  function ServerLatest<M>(msgs: ServerInbox<M>, spec: CIdSpec, id: u64): Option<M>
  {
    match ServerPick(msgs, spec, id)
    case None => None
    case Some(k) => Some(msgs[k].1.msg)
  }

  /** The payload of the last message a client has received for `id`. */
  function ClientLatest<M>(msgs: ClientInbox<M>, id: u64): Option<M>
  {
    match ClientPick(msgs, id)
    case None => None
    case Some(k) => Some(msgs[k].msg)
  }

  /** `*comp = msg.into()` when a message was selected. */
  function Overwrite<T, M>(current: T, latest: Option<M>, from: M -> T): T
  {
    if latest.Some? then from(latest.value) else current
  }

  /** The spec a direction follows, if it follows anyone. */
  function FollowSpec(dir: NetDirection): Option<CIdSpec>
  {
    match dir
    case From(spec) => Some(spec)
    case ToFrom(_, spec) => Some(spec)
    case To(_) => None
  }

  /** The component of a queried entity after the server branch. */
  function ServerValue<T, M>(e: EntityView<T>, msgs: ServerInbox<M>, from: M -> T): T
    requires InQuery(e)
  {
    match FollowSpec(e.comp.value.dir)
    case Some(spec) => Overwrite(e.value.value, ServerLatest(msgs, spec, e.net.value.id), from)
    case None => e.value.value
  }

  /** The sends of a queried entity in the server branch; a `ToFrom`
      publishes the value it has just applied. */
  function ServerSends<T, M>(e: EntityView<T>, msgs: ServerInbox<M>, into: T -> M, from: M -> T): seq<Outgoing<M>>
    requires InQuery(e)
  {
    match e.comp.value.dir
    case From(_) => []
    case To(spec) => [SendSpec(spec, NetCompMsg(e.net.value.id, into(e.value.value)))]
    case ToFrom(spec, _) => [SendSpec(spec, NetCompMsg(e.net.value.id, into(ServerValue(e, msgs, from))))]
  }

  /** The component of a queried entity after the client branch. */
  function ClientValue<T, M>(e: EntityView<T>, msgs: ClientInbox<M>, from: M -> T): T
    requires InQuery(e)
  {
    if e.comp.value.dir.From? then Overwrite(e.value.value, ClientLatest(msgs, e.net.value.id), from)
    else e.value.value
  }

  /** The sends of a queried entity in the client branch. */
  function ClientSends<T, M>(e: EntityView<T>, into: T -> M): seq<Outgoing<M>>
    requires InQuery(e)
  {
    if e.comp.value.dir.To? then [SendToServer(NetCompMsg(e.net.value.id, into(e.value.value)))]
    else []
  }

  /** An entity after one pass: the server branch runs whenever a server
      exists, the client branch only when there is no server. */
  function EntityAfter<T, M>(server: Option<ServerInbox<M>>, client: Option<ClientInbox<M>>,
                             e: EntityView<T>, from: M -> T): EntityView<T>
  {
    if !InQuery(e) then e
    else if server.Some? then e.(value := Some(ServerValue(e, server.value, from)))
    else if client.Some? then e.(value := Some(ClientValue(e, client.value, from)))
    else e
  }

  /** The sends one entity contributes to a pass. */
  function EntitySends<T, M>(server: Option<ServerInbox<M>>, client: Option<ClientInbox<M>>,
                             e: EntityView<T>, into: T -> M, from: M -> T): seq<Outgoing<M>>
  {
    if !InQuery(e) then []
    else if server.Some? then ServerSends(e, server.value, into, from)
    else if client.Some? then ClientSends(e, into)
    else []
  }

  /** All sends of a pass over `es`, in query order. */
  function PassSends<T, M>(server: Option<ServerInbox<M>>, client: Option<ClientInbox<M>>,
                           es: seq<EntityView<T>>, into: T -> M, from: M -> T): seq<Outgoing<M>>
  {
    if es == [] then []
    else PassSends(server, client, es[..|es| - 1], into, from)
         + EntitySends(server, client, es[|es| - 1], into, from)
  }

  /** One iteration of the server branch's loop over the query. */
  method ServerEntity<T, M>(e: EntityView<T>, msgs: ServerInbox<M>, into: T -> M, from: M -> T)
    returns (after: EntityView<T>, out: seq<Outgoing<M>>)
    ensures after == EntityAfter(Some(msgs), None, e, from)
    ensures out == EntitySends(Some(msgs), None, e, into, from)
  {
    after, out := e, [];
    if e.net.Some? && e.comp.Some? && e.value.Some? {
      var id := e.net.value.id;
      match e.comp.value.dir
      case From(spec) =>
        var k := ServerPick(msgs, spec, id);
        if k.Some? {
          after := e.(value := Some(from(msgs[k.value].1.msg)));
        }
      case To(spec) =>
        out := [SendSpec(spec, NetCompMsg(id, into(e.value.value)))];
      case ToFrom(toSpec, fromSpec) =>
        var k := ServerPick(msgs, fromSpec, id);
        var v := e.value.value;
        if k.Some? {
          v := from(msgs[k.value].1.msg);
          after := e.(value := Some(v));
        }
        out := [SendSpec(toSpec, NetCompMsg(id, into(v)))];
    }
  }

  /** One iteration of the client branch's loop over the query. */
  method ClientEntity<T, M>(e: EntityView<T>, msgs: ClientInbox<M>, into: T -> M, from: M -> T)
    returns (after: EntityView<T>, out: seq<Outgoing<M>>)
    ensures after == EntityAfter(None, Some(msgs), e, from)
    ensures out == EntitySends(None, Some(msgs), e, into, from)
  {
    after, out := e, [];
    if e.net.Some? && e.comp.Some? && e.value.Some? {
      var id := e.net.value.id;
      match e.comp.value.dir
      case From(_) =>
        var k := ClientPick(msgs, id);
        if k.Some? {
          after := e.(value := Some(from(msgs[k.value].msg)));
        }
      case To(_) =>
        out := [SendToServer(NetCompMsg(id, into(e.value.value)))];
      case ToFrom(_, _) =>
        // not allowed on a client: only logged
    }
  }

  /** A present server decides the pass; a client beside it plays no part. */
  lemma ServerBranchWins<T, M>(server: Option<ServerInbox<M>>, client: Option<ClientInbox<M>>,
                               e: EntityView<T>, into: T -> M, from: M -> T)
    requires server.Some?
    ensures EntityAfter(server, client, e, from) == EntityAfter(server, None, e, from)
    ensures EntitySends(server, client, e, into, from) == EntitySends(server, None, e, into, from)
  {
  }

  /** Without either role the pass does nothing. */
  lemma {:induction false} NoRoleIsInert<T, M>(es: seq<EntityView<T>>, into: T -> M, from: M -> T)
    ensures PassSends(None, None, es, into, from) == []
  {
    if es != [] {
      NoRoleIsInert(es[..|es| - 1], into, from);
    }
  }

  /** `network_comp_sys::<T, M>`: every entity's component is updated in
      place as `EntityAfter` says, and the sends go out in query order. */
  method NetworkCompSys<T, M>(server: Option<ServerInbox<M>>, client: Option<ClientInbox<M>>,
                              world: array<EntityView<T>>, into: T -> M, from: M -> T)
    returns (sent: seq<Outgoing<M>>)
    modifies world
    ensures forall i :: 0 <= i < world.Length ==> world[i] == EntityAfter(server, client, old(world[i]), from)
    ensures sent == PassSends(server, client, old(world[..]), into, from)
  {
    ghost var w0 := world[..];
    sent := [];
    if server.Some? {
      var msgs := server.value;
      for i := 0 to world.Length
        invariant forall j :: 0 <= j < i ==> world[j] == EntityAfter(server, client, w0[j], from)
        invariant forall j :: i <= j < world.Length ==> world[j] == w0[j]
        invariant sent == PassSends(server, client, w0[..i], into, from)
      {
        assert w0[..i + 1][..i] == w0[..i];
        ServerBranchWins(server, client, w0[i], into, from);
        var after, out := ServerEntity(world[i], msgs, into, from);
        world[i] := after;
        sent := sent + out;
      }
    } else if client.Some? {
      var msgs := client.value;
      for i := 0 to world.Length
        invariant forall j :: 0 <= j < i ==> world[j] == EntityAfter(server, client, w0[j], from)
        invariant forall j :: i <= j < world.Length ==> world[j] == w0[j]
        invariant sent == PassSends(server, client, w0[..i], into, from)
      {
        assert w0[..i + 1][..i] == w0[..i];
        var after, out := ClientEntity(world[i], msgs, into, from);
        world[i] := after;
        sent := sent + out;
      }
    } else {
      NoRoleIsInert(w0, into, from);
    }
    assert w0[..world.Length] == w0;
  }

  /** A system added to the app: the replication pass for one wire type. */
  datatype System = NetworkCompSystem(wire: string)

  /** The app, as far as registration goes: the systems added so far. */
  class App {
    var systems: seq<System>

    constructor ()
      ensures systems == []
    {
      systems := [];
    }
  }

  /** `sync_comp::<T, M>`: registers `NetCompMsg<M>` and adds the pass for
      `M`. On a duplicate registration the `unwrap` aborts (`aborted`), with
      nothing added. */
  method SyncComp(app: App, table: MsgTable<MsgType>, wire: string, transport: Transport)
    returns (aborted: bool)
    requires table.Valid()
    modifies app, table
    ensures table.Valid()
    ensures aborted <==> old(table.IsRegistered(NetCompMsgType(wire)))
    ensures aborted ==> table.entries == old(table.entries) && app.systems == old(app.systems)
    ensures !aborted ==> table.entries == old(table.entries) + [(NetCompMsgType(wire), transport)]
    ensures !aborted ==> app.systems == old(app.systems) + [NetworkCompSystem(wire)]
  {
    var r := table.Register(NetCompMsgType(wire), transport);
    if r.Fail? {
      return true;
    }
    app.systems := app.systems + [NetworkCompSystem(wire)];
    aborted := false;
  }

  /** `try_sync_comp::<T, M>`: as `SyncComp`, but a duplicate registration
      is returned as the error, and no system is added. */
  method TrySyncComp(app: App, table: MsgTable<MsgType>, wire: string, transport: Transport)
    returns (r: Outcome<MsgRegError>)
    requires table.Valid()
    modifies app, table
    ensures table.Valid()
    ensures r.Fail? <==> old(table.IsRegistered(NetCompMsgType(wire)))
    ensures r.Fail? ==> r.error == TypeAlreadyRegistered
    ensures r.Fail? ==> table.entries == old(table.entries) && app.systems == old(app.systems)
    ensures r.Pass? ==> table.entries == old(table.entries) + [(NetCompMsgType(wire), transport)]
    ensures r.Pass? ==> app.systems == old(app.systems) + [NetworkCompSystem(wire)]
  {
    r := table.Register(NetCompMsgType(wire), transport);
    if r.Fail? {
      return;
    }
    app.systems := app.systems + [NetworkCompSystem(wire)];
  }
}
