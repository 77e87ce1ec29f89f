/** The lobby: a two-slot player roster, the server's admission of new
    connections and the client's replay of join broadcasts, and the text of
    the status and player labels. */
module Lobby {
  import opened Base
  import opened Pigeon
  import opened Messages
  import opened RunCriteria

  /** A seated player: connection id and name. */
  type PlayerEntry = (CId, string)

  /** The roster's two slots, as a value. */
  datatype Roster = Roster(p1: Option<PlayerEntry>, p2: Option<PlayerEntry>)

  const EmptyRoster := Roster(None, None)

  /** `Players::count`: the number of occupied slots. */
  function Count(r: Roster): (n: nat)
    ensures n <= 2
    ensures n == 0 <==> r.p1.None? && r.p2.None?
    ensures n == 2 <==> r.p1.Some? && r.p2.Some?
  {
    match (r.p1, r.p2)
    case (None, None) => 0
    case (Some(_), None) => 1
    case (None, Some(_)) => 1
    case (Some(_), Some(_)) => 2
  }

  /** What `Players::add` does to a roster: an empty first slot is filled
      even when the second is taken, else an empty second slot; a full
      roster is refused and kept. */
  function Added(r: Roster, cid: CId, name: string): (res: (bool, Roster))
    ensures res.0 <==> Count(r) < 2
    ensures r.p1.None? ==> res.1 == r.(p1 := Some((cid, name)))
    ensures r.p1.Some? && r.p2.None? ==> res.1 == r.(p2 := Some((cid, name)))
    ensures !res.0 ==> res.1 == r
    ensures res.0 ==> Count(res.1) == Count(r) + 1
  {
    match (r.p1, r.p2)
    case (None, _) => (true, r.(p1 := Some((cid, name))))
    case (Some(_), None) => (true, r.(p2 := Some((cid, name))))
    case (Some(_), Some(_)) => (false, r)
  }

  /** The `Players` resource, updated in place. */
  class Players {
    var p1: Option<PlayerEntry>
    var p2: Option<PlayerEntry>

    function Snapshot(): Roster
      reads this
    {
      Roster(p1, p2)
    }

    /** `Players::default()`. */
    constructor ()
      ensures Snapshot() == EmptyRoster
    {
      p1, p2 := None, None;
    }

    /** `Players::add`. */
    method Add(cid: CId, name: string) returns (ok: bool)
      modifies this
      ensures (ok, Snapshot()) == Added(old(Snapshot()), cid, name)
    {
      match (p1, p2)
      case (None, _) =>
        p1 := Some((cid, name));
        ok := true;
      case (Some(_), None) =>
        p2 := Some((cid, name));
        ok := true;
      case (Some(_), Some(_)) =>
        ok := false;
    }
  }

  /** The `existing_player` captured before an add: the first slot's name. */
  function FirstName(r: Roster): Option<string>
  {
    if r.p1.Some? then Some(r.p1.value.1) else None
  }

  /** The state after the server has handled a batch of new connections:
      the roster, the response to each connection, and the broadcasts
      queued for the accepted ones. */
  datatype Admission = Admission(roster: Roster, responses: seq<Response>, broadcasts: seq<ConnectionBroadcast>)

  /** The callback `handle_connections` gives `handle_new_cons`, applied to
      each new connection in turn. */
  function Admit(r: Roster, pending: seq<(CId, Connection)>): Admission
  {
    if pending == [] then Admission(r, [], [])
    else
      var a := Admit(r, pending[..|pending| - 1]);
      var (cid, c) := pending[|pending| - 1];
      var (ok, r') := Added(a.roster, cid, c.name);
      if ok then Admission(r', a.responses + [Accepted(cid, FirstName(a.roster))],
                           a.broadcasts + [NewConnectionBroadcast(c.name, cid)])
      else Admission(a.roster, a.responses + [Rejected(MaxPlayersReached)], a.broadcasts)
  }

  function Min(a: int, b: int): int
  {
    if a <= b then a else b
  }

  /** Admission seats the first `2 - Count(r)` connections and rejects the
      rest; each accepted one gets its own id back and one broadcast, in
      acceptance order; the roster grows by the number accepted. */
  lemma {:induction false} AdmitSeatsWhileRoom(r: Roster, pending: seq<(CId, Connection)>)
    ensures var a := Admit(r, pending);
      && |a.responses| == |pending|
      && |a.broadcasts| == Min(2 - Count(r), |pending|)
      && Count(a.roster) == Count(r) + |a.broadcasts|
      && (forall k :: 0 <= k < |pending| ==>
            (a.responses[k].Accepted? <==> k < 2 - Count(r)))
      && (forall k :: 0 <= k < |pending| && a.responses[k].Accepted? ==>
            a.responses[k].cid == pending[k].0)
      && (forall k :: 0 <= k < |pending| && a.responses[k].Rejected? ==>
            a.responses[k].reason == MaxPlayersReached)
      && (forall k :: 0 <= k < |a.broadcasts| ==>
            a.broadcasts[k] == ConnectionBroadcast(pending[k].1.name, pending[k].0))
  {
    if pending != [] {
      var n := |pending| - 1;
      AdmitSeatsWhileRoom(r, pending[..n]);
      var a := Admit(r, pending[..n]);
      assert forall k :: 0 <= k < n ==> pending[..n][k] == pending[k];
    }
  }

  /** Every accept response names the first seated player as the roster
      stood just before that connection was admitted. */
  lemma {:induction false} AcceptedCarriesFirstBefore(r: Roster, pending: seq<(CId, Connection)>)
    ensures var a := Admit(r, pending);
      && |a.responses| == |pending|
      && forall k :: 0 <= k < |pending| && a.responses[k].Accepted? ==>
           a.responses[k].existing == FirstName(Admit(r, pending[..k]).roster)
  {
    if pending != [] {
      var n := |pending| - 1;
      AcceptedCarriesFirstBefore(r, pending[..n]);
      forall k | 0 <= k < n
        ensures pending[..n][..k] == pending[..k]
      {
      }
    }
  }

  /** An empty lobby accepts at most two connections, however many arrive. */
  lemma AtMostTwoAccepted(pending: seq<(CId, Connection)>)
    ensures |Admit(EmptyRoster, pending).broadcasts| <= 2
    ensures Count(Admit(EmptyRoster, pending).roster) == |Admit(EmptyRoster, pending).broadcasts|
  {
    AdmitSeatsWhileRoom(EmptyRoster, pending);
  }

  /** Three connections to an empty lobby: the first is told there is no
      one yet, the second is told the first player's name, the third is
      turned away. */
  lemma ThreeJoinAnEmptyLobby(a: CId, an: string, b: CId, bn: string, c: CId, cn: string)
    ensures Admit(EmptyRoster, [(a, Connection(an)), (b, Connection(bn)), (c, Connection(cn))])
         == Admission(Roster(Some((a, an)), Some((b, bn))),
                      [Accepted(a, None), Accepted(b, Some(an)), Rejected(MaxPlayersReached)],
                      [ConnectionBroadcast(an, a), ConnectionBroadcast(bn, b)])
  {
    var p := [(a, Connection(an)), (b, Connection(bn)), (c, Connection(cn))];
    assert p[..2] == [(a, Connection(an)), (b, Connection(bn))];
    assert p[..2][..1] == [(a, Connection(an))];
    assert p[..2][..1][..0] == p[..0];
    var r1 := Roster(Some((a, an)), None);
    assert Admit(EmptyRoster, p[..1]) == Admission(r1, [Accepted(a, None)], [ConnectionBroadcast(an, a)]);
    assert Admit(EmptyRoster, p[..2]) == Admission(r1.(p2 := Some((b, bn))), [Accepted(a, None), Accepted(b, Some(an))],
                                                  [ConnectionBroadcast(an, a), ConnectionBroadcast(bn, b)]);
  }

  /** The client's replay: every received broadcast is added in arrival order. */
  function Replay(r: Roster, msgs: seq<ConnectionBroadcast>): Roster
  {
    if msgs == [] then r
    else Added(Replay(r, msgs[..|msgs| - 1]), msgs[|msgs| - 1].cid, msgs[|msgs| - 1].name).1
  }

  /** Replaying join broadcasts into an empty roster seats the first two
      joiners, in order. */
  lemma {:induction false} ReplaySeatsFirstTwo(msgs: seq<ConnectionBroadcast>)
    ensures |msgs| >= 1 ==> Replay(EmptyRoster, msgs).p1 == Some((msgs[0].cid, msgs[0].name))
    ensures |msgs| >= 2 ==> Replay(EmptyRoster, msgs).p2 == Some((msgs[1].cid, msgs[1].name))
    ensures Count(Replay(EmptyRoster, msgs)) == Min(2, |msgs|)
  {
    if msgs != [] {
      var n := |msgs| - 1;
      ReplaySeatsFirstTwo(msgs[..n]);
      assert n >= 1 ==> msgs[..n][0] == msgs[0];
      assert n >= 2 ==> msgs[..n][1] == msgs[1];
    }
  }

  /** `handle_connections`. With a server, the new connections are
      admitted one by one and then the queued broadcasts are sent, in order
      (`sent`); a client without a server replays the join broadcasts it
      received. */
  method HandleConnections(players: Players, server: Option<seq<(CId, Connection)>>,
                           client: Option<seq<ConnectionBroadcast>>)
    returns (responses: seq<Response>, sent: seq<ConnectionBroadcast>)
    modifies players
    ensures server.Some? ==>
              Admission(players.Snapshot(), responses, sent) == Admit(old(players.Snapshot()), server.value)
    ensures server.None? && client.Some? ==>
              players.Snapshot() == Replay(old(players.Snapshot()), client.value) && responses == [] && sent == []
    ensures server.None? && client.None? ==>
              players.Snapshot() == old(players.Snapshot()) && responses == [] && sent == []
  {
    responses, sent := [], [];
    if server.Some? {
      var pending := server.value;
      var broadcasts := [];
      for i := 0 to |pending|
        invariant Admission(players.Snapshot(), responses, broadcasts) == Admit(old(players.Snapshot()), pending[..i])
      {
        assert pending[..i + 1][..i] == pending[..i];
        var (cid, c) := pending[i];
        var existing := FirstName(players.Snapshot());
        var ok := players.Add(cid, c.name);
        if ok {
          broadcasts := broadcasts + [NewConnectionBroadcast(c.name, cid)];
          responses := responses + [Accepted(cid, existing)];
        } else {
          responses := responses + [Rejected(MaxPlayersReached)];
        }
      }
      assert pending[..|pending|] == pending;
      for i := 0 to |broadcasts|
        invariant sent == broadcasts[..i]
      {
        sent := sent + [broadcasts[i]];
      }
      assert broadcasts[..|broadcasts|] == broadcasts;
    } else if client.Some? {
      var msgs := client.value;
      for i := 0 to |msgs|
        invariant players.Snapshot() == Replay(old(players.Snapshot()), msgs[..i])
      {
        assert msgs[..i + 1][..i] == msgs[..i];
        var _ := players.Add(msgs[i].cid, msgs[i].name);
      }
      assert msgs[..|msgs|] == msgs;
    }
  }

  /** Whether the lobby was opened as a server, a host or a client. */
  datatype MultiplayerType = ServerMode | HostMode | ClientMode

  /** The status word `update_status` puts after "Status: ". */
  function Status(mode: MultiplayerType, client: Option<ClientRes>, server: Option<ServerRes>): (s: string)
    ensures mode == ClientMode ==> s == "Client connected" || s == "Client not connected"
    ensures mode != ClientMode ==> s == "Server Listening" || s == "No Server"
  {
    match mode
    case ClientMode =>
      (match client
       case Some(c) => if c.open then "Client connected" else "Client not connected"
       case None => "Client not connected")
    case _ => if server.Some? then "Server Listening" else "No Server"
  }

  /** A client-mode lobby reports the client's connection, any other mode
      the server's presence, exactly as the client and server run criteria
      decide them. */
  lemma StatusFollowsRunCriteria(mode: MultiplayerType, client: Option<ClientRes>, server: Option<ServerRes>)
    ensures mode == ClientMode ==>
              (Status(mode, client, server) == "Client connected" <==> RunIfClient(client) == Yes)
    ensures mode != ClientMode ==>
              (Status(mode, client, server) == "Server Listening" <==> RunIfServer(server) == Yes)
  {
  }

  /** `update_status`: every status label gets the same text. */
  method UpdateStatus(labels: array<string>, mode: MultiplayerType, client: Option<ClientRes>, server: Option<ServerRes>)
    modifies labels
    ensures forall i :: 0 <= i < labels.Length ==> labels[i] == "Status: " + Status(mode, client, server)
  {
    var status := "Status: " + Status(mode, client, server);
    for i := 0 to labels.Length
      invariant forall j :: 0 <= j < i ==> labels[j] == status
    {
      labels[i] := status;
    }
  }

  /** Which slot a player label shows. */
  datatype PlayerMarker = One | Two

  datatype PlayerLabel = PlayerLabel(player: PlayerMarker, text: string)

  /** A slot's label: the seated player's name, else "Player 1" / "Player 2". */
  function PlayerText(r: Roster, player: PlayerMarker): (s: string)
    ensures player == One && r.p1.Some? ==> s == r.p1.value.1
    ensures player == Two && r.p2.Some? ==> s == r.p2.value.1
    ensures player == One && r.p1.None? ==> s == "Player 1"
    ensures player == Two && r.p2.None? ==> s == "Player 2"
  {
    match player
    case One => if r.p1.Some? then r.p1.value.1 else "Player 1"
    case Two => if r.p2.Some? then r.p2.value.1 else "Player 2"
  }

  /** `update_player_labels`: each label shows its slot; markers stay. */
  method UpdatePlayerLabels(labels: array<PlayerLabel>, players: Players)
    modifies labels
    ensures forall i :: 0 <= i < labels.Length ==>
              labels[i] == PlayerLabel(old(labels[i]).player, PlayerText(players.Snapshot(), old(labels[i]).player))
  {
    var r := players.Snapshot();
    for i := 0 to labels.Length
      invariant forall j :: 0 <= j < i ==> labels[j] == PlayerLabel(old(labels[j]).player, PlayerText(r, old(labels[j]).player))
      invariant forall j :: i <= j < labels.Length ==> labels[j] == old(labels[j])
    {
      labels[i] := labels[i].(text := PlayerText(r, labels[i].player));
    }
  }
}
