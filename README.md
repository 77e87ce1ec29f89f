# bong: component replication, lobby admission and brick events, in Dafny

This project models the networking core of *bong*, a two-player brick-breaking
game built on the bevy engine and the carrier_pigeon networking crate. The model
covers:

- the per-frame **component-replication pass** `network_comp_sys` and its
  registration (`sync_comp` / `try_sync_comp`);
- the `NetComp` sync marker and its directions `To`, `From` and `ToFrom`;
- the **two-slot lobby roster**, the server's admission of new connections, the
  client's replay of join broadcasts, and the status and player label texts;
- the **brick layout** and the **brick-break event rules**. The server turns
  ball–brick contacts into `BrickBreak(id)` broadcasts, and a client despawns
  the bricks whose ids it receives;
- the event message table, the wire projections `MyTransform` / `MyVelocity`,
  and the run criteria that gate systems on the roles present.

Modules, one per source file:

- `NetTypes` and `Net` model `src/plugin/net.rs`. The data types are split from
  the pass because `NetComp` needs `NetDirection`, and Dafny modules cannot
  import each other in a cycle.
- `NetProperties` and `Scenarios` hold the lemmas about the pass.
- `NetComp`, `RunCriteria`, `Lobby`, `Game`, `Messages` and `Brick` model the
  other core files.

Three modules describe foreign crates as interfaces. They contain no
model of those crates' code:

- `Pigeon` covers carrier_pigeon: connection ids, `CIdSpec`, the message table.
- `Engine` covers bevy and heron: entity handles, collision events,
  transforms, velocities.
- `Base` holds `Option`, `Outcome` and the fixed-width integers.

How the model is built:

- **Peer addressing.** `CIdSpec::matches` is foreign. `Pigeon.Matches` states
  its assumed meaning: `All` matches every id, `Only(x)` matches only `x`, and
  `Except(x)` matches everything but `x`.
- **Message table.** `MsgTable::register` is also foreign. It is modelled as
  an append to a registration list that refuses a type already on the list.
- **Sends.** Every send (`send_spec`, `send`, `broadcast`) is an append to an
  outbox sequence that the pass returns.
- **Receives.** What `recv` yields this frame is an input sequence.
- **Replication pass.** `Net.NetworkCompSys` updates an array of entity views
  in place. Each view may or may not carry its `NetEntity`, its `NetComp`
  marker and its component. Its postconditions relate the new array and the
  outbox to the specification functions `EntityAfter` and `PassSends`.
  `NetProperties` proves what those functions promise: last writer wins, no
  match leaves the component unchanged, `To` never writes, a server `ToFrom`
  applies before it publishes, a client rejects `ToFrom`, entities outside the
  query are untouched, and there is one send per publisher.
- **End to end.** `Scenarios` chains passes across peers over an ideal
  transport: a server publishing to a client, the ball's transform, and a
  relay through a `ToFrom` hub.

Two behaviours of the code worth noting, followed by one type mismatch:

- A `ToFrom` directive on a client is only logged. The component is left
  alone and nothing is sent (src/plugin/net.rs:168-170).
- A `ToFrom` whose two specs overlap is accepted as it is. The code only has a
  TODO at that point (src/plugin/net.rs:141).
- `Response::Accepted` is declared with payload `Option<(CId, String)>`
  (src/messages.rs:50). But `handle_connections` builds it from
  `players.p1.clone().map(|p| p.1)`, which is the first player's *name*,
  captured before the new player is added (src/lobby.rs:288).
  `connect_client` also uses the payload as a name (src/lobby.rs:114-115).
  The model's `Response.Accepted` carries `Option<string>`: the name of the
  player in the first slot before the add.

## Model

| member | source | states |
|---|---|---|
| `Pigeon.MsgTable.Register` | src/plugin/net.rs:99 | assumed behaviour of the foreign `register`: it succeeds iff the type is not yet registered; on success it appends (type, transport); otherwise it returns `TypeAlreadyRegistered` and leaves the table unchanged; registered types stay distinct |
| `Pigeon.Matches` | src/plugin/net.rs:131 | assumed meaning of the foreign `CIdSpec::matches`: `All` matches every id, `Only(x)` only `x`, `Except(x)` every id but `x` |
| `Pigeon.MsgTable.constructor` | src/messages.rs:66 | `MsgTable::new()` starts with no registrations |
| `Messages.GetTable` | src/messages.rs:65-74 | the event table holds exactly five types, all TCP, in the order ConnectionBroadcast, DisconnectBroadcast, StartGame, BrickBreak, GameWin; no registration can hit a duplicate, so no `unwrap` aborts |
| `Messages.NewConnection` | src/messages.rs:17-23 | `Connection::new` stores the name unchanged |
| `Messages.NewConnectionBroadcast` | src/messages.rs:32-39 | `ConnectionBroadcast::new` stores the name and the cid unchanged |
| `Messages.ToMyTransform` | src/messages.rs:97-104 | keeps translation x, y and the rotation; drops translation z and the scale |
| `Messages.FromMyTransform` | src/messages.rs:106-114 | translation z becomes 0 and the scale becomes the default; x, y and the rotation are kept |
| `Messages.MyTransformRoundTrip` | src/messages.rs:97-114 | wire form → Transform → wire form is the identity |
| `Messages.TransformRoundTrip` | src/messages.rs:97-114 | Transform → wire form → Transform is the identity exactly when z = 0 and the scale is the default |
| `Messages.ToMyVelocity` | src/messages.rs:125-131 | keeps linear x, y |
| `Messages.FromMyVelocity` | src/messages.rs:133-139 | linear z becomes 0 and the angular velocity becomes the default |
| `Messages.MyVelocityRoundTrip` | src/messages.rs:125-139 | wire form → Velocity → wire form is the identity |
| `Messages.VelocityRoundTrip` | src/messages.rs:125-139 | Velocity → wire form → Velocity is the identity exactly when linear z = 0 and the angular velocity is the default |
| `NetTypes.NewNetEntity` | src/plugin/net.rs:39-45 | `NetEntity::new` stores the id |
| `NetTypes.NewNetCompMsg` | src/plugin/net.rs:56-63 | `NetCompMsg::new` stores the id and the payload |
| `NetComp.New` | src/plugin/net_comp.rs:39-44 | `new(d).dir == d` for every direction |
| `NetComp.Default` | src/plugin/net_comp.rs:26-31 | the default direction is `From(All)` |
| `NetComp.DefaultIsNewFromAll` | src/plugin/net_comp.rs:26-44 | `default()` equals `new(From(All))` |
| `NetComp.EqualIffSameDirection` | src/plugin/net_comp.rs:10-19 | two markers are equal iff their directions are equal (the type pair is phantom) |
| `RunCriteria.RunIfClient` | src/plugin/run_criteria.rs:12-15 | Yes iff a client exists and is open |
| `RunCriteria.RunIfServer` | src/plugin/run_criteria.rs:24 | Yes iff a server exists, whatever the client |
| `RunCriteria.RunIfHost` | src/plugin/run_criteria.rs:33-34 | No when either role is missing; Yes iff both exist and the client is open |
| `RunCriteria.HostIsClientAndServer` | src/plugin/run_criteria.rs:12-34 | host is Yes iff client is Yes and server is Yes; so host-Yes implies both |
| `Net.LastWhere` | src/plugin/net.rs:131 | `filter(p).last()` as a position: if there is a result, it satisfies `p` and no later element does; there is none iff no element satisfies `p` |
| `Net.ServerPick` | src/plugin/net.rs:131 | the server selects the last message whose sender the spec matches and whose id is the entity's; there is no selection iff no message qualifies |
| `Net.ClientPick` | src/plugin/net.rs:159 | the client selects the last message with the entity's id, whatever its spec; there is no selection iff none has the id |
| `Net.ServerEntity` | src/plugin/net.rs:127-151 | one server iteration (From, To, ToFrom arms) yields exactly the entity and sends that the pass specification gives |
| `Net.ClientEntity` | src/plugin/net.rs:155-171 | one client iteration (From, To, rejected ToFrom) yields exactly the entity and sends that the pass specification gives |
| `Net.EntityAfter` | src/plugin/net.rs:125-172 | pass specification for one entity: unchanged outside the query (net.rs:119); with a server, the server value (the last accepted message's payload for From/ToFrom, else the old value); otherwise with a client, the client value; with neither role, unchanged |
| `Net.EntitySends` | src/plugin/net.rs:125-172 | the sends one entity contributes: none outside the query; with a server, one `send_spec` for To/ToFrom; otherwise with a client, one `send` for To; none otherwise |
| `Net.PassSends` | src/plugin/net.rs:125-172 | the outbox of a whole pass: the concatenation of `EntitySends` over the query in order |
| `Net.ServerBranchWins` | src/plugin/net.rs:125-153 | when a server exists the client branch never runs: a host behaves exactly as a pure server in this pass |
| `Net.NoRoleIsInert` | src/plugin/net.rs:125-174 | with neither a server nor a client the pass sends nothing |
| `Net.NetworkCompSys` | src/plugin/net.rs:116-174 | every entity is updated in place to `EntityAfter` of its old state; the outbox is `PassSends` of the old world in query order; the inbound list is an immutable input |
| `Net.SyncComp` | src/plugin/net.rs:91-101 | aborts iff `NetCompMsg<M>` is already registered, with nothing added; otherwise it registers the type and adds the pass for `M` |
| `Net.TrySyncComp` | src/plugin/net.rs:103-113 | on a duplicate it returns `TypeAlreadyRegistered`, with the table unchanged and no system added; otherwise it registers and adds the pass |
| `Net.App.constructor` | src/plugin/net.rs:94-101 | the app starts with no systems, so every system present was added by `SyncComp`/`TrySyncComp` |
| `NetProperties.ServerLastWriterWins` | src/plugin/net.rs:129-145 | server, From(spec) or ToFrom(_, spec): the component becomes the payload of the last message (in receive order) from a sender `spec` matches that carries the entity's id |
| `NetProperties.ServerLastArrivalWins` | src/plugin/net.rs:131 | a matching envelope that arrives last wins whatever arrived before it in the frame |
| `NetProperties.ServerNoMatchUnchanged` | src/plugin/net.rs:129-134 | server: with no matching message the entity is unchanged |
| `NetProperties.ClientLastWriterWins` | src/plugin/net.rs:157-162 | client, From(_): the last received message with the entity's id wins |
| `NetProperties.ClientNoMatchUnchanged` | src/plugin/net.rs:157-162 | client: with no message for the id the entity is unchanged |
| `NetProperties.ClientIgnoresSpec` | src/plugin/net.rs:157-159 | on a client the spec of From is ignored |
| `NetProperties.ToNeverModifies` | src/plugin/net.rs:135-167 | To(spec) never modifies the component, on a server or a client |
| `NetProperties.ServerToPublishesOnce` | src/plugin/net.rs:135-139 | server To(spec): exactly one send, to `spec`, of `NetCompMsg{entity id, current value projected}` |
| `NetProperties.ClientToPublishesOnce` | src/plugin/net.rs:163-167 | client To(_): exactly one send, to the server, of the current value projected |
| `NetProperties.ServerToFromAppliesThenPublishes` | src/plugin/net.rs:140-150 | server ToFrom(to, from): one send, to `to`, whose payload is the value after the apply step (the fresh value if one matched, else the old one) |
| `NetProperties.ClientToFromInert` | src/plugin/net.rs:168-170 | client ToFrom: the component is unchanged and nothing is sent |
| `NetProperties.OutsideQueryUntouched` | src/plugin/net.rs:119 | an entity lacking `NetEntity`, `NetComp<T,M>` or `T` is neither written nor published |
| `NetProperties.OnlyTheComponentChanges` | src/plugin/net.rs:119-133 | a pass keeps every entity's id and marker, and changes only the component value |
| `NetProperties.SendsComeFromPublishers` | src/plugin/net.rs:127-172 | every send of a pass carries the id of a queried entity that publishes in that role (To/ToFrom on a server, To on a client) |
| `NetProperties.OneSendPerPublisher` | src/plugin/net.rs:127-172 | a pass sends exactly one message per publishing entity |
| `Scenarios.PublishThenFollow` | src/plugin/net.rs:135-162 | a server To(spec) publication, delivered to a client `spec` matches, sets a following client entity with the same id to `from(into(v))` |
| `Scenarios.BallTransformReplicates` | src/game.rs:108-135 | with the ball directives of `setup_game`, a client's ball transform ends the frame equal to the server's (for z = 0 and the default scale) |
| `Scenarios.RelayThroughServer` | src/plugin/net.rs:140-162 | client A's To value, relayed by a server ToFrom(Except(A), Only(A)) hub, reaches a From client B ≠ A |
| `Scenarios.RelayDoesNotEcho` | src/plugin/net.rs:140-150 | the hub's publication to Except(A) is never delivered back to A |
| `Lobby.Count` | src/lobby.rs:33-40 | the number of occupied slots, in 0..2; it is 0 iff both slots are free and 2 iff both are taken |
| `Lobby.Added` | src/lobby.rs:42-54 | `add` fills p1 whenever p1 is empty (even if p2 is taken), else an empty p2; it succeeds iff the count is below 2; a refused add changes nothing; a successful one raises the count by 1 |
| `Lobby.Players.constructor` | src/lobby.rs:26-30 | the default roster is empty |
| `Lobby.Players.Add` | src/lobby.rs:42-54 | the in-place add returns and leaves exactly what `Added` gives |
| `Lobby.FirstName` | src/lobby.rs:288 | the `existing_player` captured from `players.p1`: the first slot's name, or none when the slot is free |
| `Lobby.Admit` | src/lobby.rs:287-297 | the `handle_new_cons` callback applied to the connections in order: an add that succeeds answers `Accepted(cid, first name before the add)` and queues a broadcast; one that fails answers `Rejected(MaxPlayersReached)` and keeps the roster |
| `Lobby.AdmitSeatsWhileRoom` | src/lobby.rs:285-301 | of a batch of new connections, exactly the first 2 − count are accepted (each with its own cid) and the rest get `Rejected(MaxPlayersReached)`; one broadcast per accepted connection, in acceptance order, none for rejected; the roster grows by the number accepted |
| `Lobby.AcceptedCarriesFirstBefore` | src/lobby.rs:288-292 | for every input, each accept response carries the first slot's name as it stood just before that connection was admitted |
| `Lobby.AtMostTwoAccepted` | src/lobby.rs:287-297 | an initially empty roster accepts at most two connections |
| `Lobby.ThreeJoinAnEmptyLobby` | src/lobby.rs:287-297 | the first of three joiners is told nobody is seated, the second is told the first's name (p1 captured before the add), the third is rejected |
| `Lobby.Replay` | src/lobby.rs:302-306 | the client adds every received `ConnectionBroadcast` to its roster, in arrival order |
| `Lobby.ReplaySeatsFirstTwo` | src/lobby.rs:302-306 | a client replaying join broadcasts into an empty roster seats the first two joiners in arrival order |
| `Lobby.HandleConnections` | src/lobby.rs:280-308 | server: the roster, responses and broadcast outbox are those of admitting the new connections in order, and broadcasts are sent after all are handled; client with no server: the roster is the replay of the received broadcasts; neither: nothing changes |
| `Lobby.Status` | src/lobby.rs:221-237 | Client mode yields only "Client connected" / "Client not connected"; any other mode yields only "Server Listening" / "No Server" |
| `Lobby.StatusFollowsRunCriteria` | src/lobby.rs:221-237 | Client mode says "Client connected" iff a client exists and is open; other modes say "Server Listening" iff a server exists |
| `Lobby.UpdateStatus` | src/lobby.rs:215-242 | every status label is set to "Status: " followed by the chosen word |
| `Lobby.PlayerText` | src/lobby.rs:248-255 | a slot's label is the seated player's name, else "Player 1" / "Player 2" |
| `Lobby.UpdatePlayerLabels` | src/lobby.rs:244-263 | each label shows its own slot's text; the markers are unchanged |
| `Brick.SetupBricks` | src/brick.rs:16-48 | 6×10 spawns per side, 120 in all; spawn k is at layout position k (left wall first, column by column) |
| `Brick.SpawnIndexInjective` | src/brick.rs:19-47 | distinct layout positions have distinct indices, so each position is spawned once |
| `Brick.BreakBricks` | src/brick.rs:50-75 | the despawn commands are those of the events in order: for a Stopped event, the second body if the first is the ball and the second a brick, then the first body if the second is the ball and the first a brick |
| `Brick.Despawns` | src/brick.rs:57-74 | despawn commands of a frame in event order; for each Stopped event, the second body if the first is the ball and the second a brick, then the first body if the second is the ball and the first a brick |
| `Brick.DespawnedIffStoppedAgainstBall` | src/brick.rs:57-74 | an entity is despawned iff it is a brick and some Stopped event pairs it with the ball, in either order; hence non-bricks, the ball included, are never despawned |
| `Brick.OnlyStoppedDespawns` | src/brick.rs:58-73 | frames with only Started events despawn nothing |
| `Game.SetupBricks` | src/game.rs:182-218 | 120 bricks; brick k gets id k (each id 0..119 exactly once, in spawn order) at layout position k; left-wall bricks are exactly those with ids below 60 |
| `Game.BallNetComponents` | src/game.rs:108-135 | the ball's id is 5768696975200910899 on every peer; its direction is To(All) iff a server exists, else From(All); velocity and transform share it |
| `Game.BreakBricksServer` | src/game.rs:228-250 | despawns are `Brick.Despawns` over the brick keys (the ball/brick Stopped rule, in event order), and broadcast k is `BrickBreak` of the id of the brick despawned by command k |
| `Game.ServerBreaksIff` | src/game.rs:231-249 | the server breaks a brick iff some Stopped event pairs it with the ball; non-Stopped events and non-ball-brick pairs break nothing |
| `Game.ClientTargets` | src/game.rs:252-257 | a client despawns a brick iff its id is among the ids received this frame |
| `Game.Without` | src/game.rs:253-256 | the bricks left after the despawns: exactly the old bricks not despawned, each with its id unchanged |
| `Game.BreakBricksClient` | src/game.rs:251-258 | visiting every brick in any order despawns exactly `ClientTargets` |
| `Game.ClientApplyIdempotent` | src/game.rs:252-257 | processing the same ids again after they were applied despawns nothing |
| `Game.UnknownIdIgnored` | src/game.rs:252-257 | an id that names no brick has no effect |
| `Game.OtherBricksKept` | src/game.rs:253-256 | a brick whose id was not received survives the frame |
| `Game.IdsOf` | src/game.rs:252 | the received messages' ids, in order |
| `Game.BreakBricks` | src/game.rs:220-259 | with a server, only the server branch runs (broadcasts and despawns paired); otherwise a client despawns its targets; with neither role, nothing happens |

## Left out

- carrier_pigeon internals. These are sockets, connection handling, `send` /
  `send_spec` / `broadcast` / `recv`, `handle_new_cons` and `MsgTable::register`.
  Sends are outbox appends, receives are input sequences, `handle_new_cons`
  hands over the frame's new connections in order, and registration is a list
  with a duplicate check.
- `CIdSpec::matches` is foreign. Its meaning is stated as
  `Pigeon.Matches`, not derived from code.
- Send failures in the replication pass are only logged in the source. A
  failed send leaves no trace in any state, so the outbox records every
  attempted send.
- The `unwrap`s on `recv` and on `broadcast` (src/plugin/net.rs:126, 154;
  src/lobby.rs:300, 303; src/game.rs:241, 246, 252) can panic on transport
  errors. The model does not represent these panics.
- `q_ball.single()` panics unless there is exactly one ball
  (src/game.rs:230, src/brick.rs:56). The ball entity is a parameter.
- Despawns are deferred bevy commands. The model returns the commands and does
  not apply them during the frame. This matches the source, where a brick
  despawned earlier in the same frame is still visible to its query.
- Game.BreakBricksClient: returns the set of despawned bricks, not the order of
  the commands, because the ECS query visits bricks in an unspecified order.
- src/plugin/tick.rs (`clear_msgs` / `recv_msgs`) consists of two opaque library
  calls. Each pass is assumed to see exactly this frame's inbound list.
- `connect_client` (src/lobby.rs:104-123) polls an asynchronous connection
  future, and `setup_networking` opens sockets.
- UI and rendering are left out. This covers src/menu.rs, `setup_lobby_ui`,
  `handle_ui`, sprites, walls and targets in `setup_game`, and the `clean_up`
  systems.
- src/main.rs and src/plugin/mod.rs wire up the camera, the physics engine and
  the plugin group.
- Physics is left out. Collision detection is replaced by an input list of
  collision events.
- Float geometry is left out: brick positions and sizes, colours, and the
  arithmetic on `Vec2`, `Quat` and velocities. Coordinates are opaque reals
  that are only copied.
- Serialization and logging are left out.
- `DisconnectBroadcast`, `StartGame` and `GameWin` are registered
  (src/messages.rs:67-71), but no modelled file sends or handles them.
- Building the table into parts and sharing it between peers (the
  "same registrations on every peer" precondition) is left out. It is a
  deployment precondition, not code.
