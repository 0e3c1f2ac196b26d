/**
 * The agent connection pool: at most one client per agent address, created on first
 * use and never replaced or closed.
 */
module AgentPool {
  import opened Wrappers

  /** An opaque connection token; `serial` tells connection objects apart. */
  datatype Client = Client(address: string, serial: nat)

  /** The `agents` map, with the number of connections built so far. */
  datatype Pool = Pool(clients: map<string, Client>, made: nat)

  /** No client for the empty address; each client belongs to its key and was built by this pool. */
  predicate WellFormed(p: Pool)
  {
    && "" !in p.clients
    && forall a | a in p.clients :: p.clients[a].address == a && p.clients[a].serial < p.made
  }

  /** The pool after making sure `address` has a client. */
  function Connect(p: Pool, address: string): (r: Pool)
    requires address != ""
    ensures address in r.clients
    ensures r.clients.Keys == p.clients.Keys + {address}
    ensures forall a | a in p.clients :: r.clients[a] == p.clients[a]
    ensures address in p.clients ==> r == p
    ensures WellFormed(p) ==> WellFormed(r)
    ensures WellFormed(p) && address !in p.clients ==>
              forall a | a in p.clients :: p.clients[a] != r.clients[address]
  {
    if address in p.clients then p
    else Pool(p.clients[address := Client(address, p.made)], p.made + 1)
  }

  /** The client for `address`, or none for the empty address, and the pool afterwards. */
  function ClientFor(p: Pool, address: string): (r: (Option<Client>, Pool))
    ensures address == "" ==> r.0 == None && r.1 == p
    ensures address != "" ==> r.1 == Connect(p, address) && r.0 == Some(r.1.clients[address])
    ensures address != "" && address in p.clients ==> r.0 == Some(p.clients[address]) && r.1 == p
  {
    if address == "" then (None, p)
    else
      var q := Connect(p, address);
      (Some(q.clients[address]), q)
  }
}
