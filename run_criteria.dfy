/** Run criteria that gate systems on which network roles are present. */
module RunCriteria {
  import opened Base
  import opened Pigeon

  datatype ShouldRun = Yes | No

  /** `run_if_client`: a client exists and its connection is open. */
  function RunIfClient(client: Option<ClientRes>): (r: ShouldRun)
    ensures r == Yes <==> client.Some? && client.value.open
  {
    match client
    case Some(c) => if c.open then Yes else No
    case None => No
  }

  /** `run_if_server`: a server exists. */
  function RunIfServer(server: Option<ServerRes>): (r: ShouldRun)
    ensures r == Yes <==> server.Some?
  {
    if server.Some? then Yes else No
  }

  /** `run_if_host`: both roles exist and the client is open. */
  function RunIfHost(client: Option<ClientRes>, server: Option<ServerRes>): (r: ShouldRun)
    ensures client.None? || server.None? ==> r == No
    ensures r == Yes <==> client.Some? && server.Some? && client.value.open
  {
    if client.None? || server.None? then No
    else if client.value.open then Yes else No
  }

  /** A host passes the client and the server criteria, and the host
      criterion is exactly their conjunction. */
  lemma HostIsClientAndServer(client: Option<ClientRes>, server: Option<ServerRes>)
    ensures RunIfHost(client, server) == Yes <==>
            RunIfClient(client) == Yes && RunIfServer(server) == Yes
  {
  }
}
