/**
 * The reconciler object: the agent connection pool and the registration cache as
 * fields updated in place, with the operations of consul/consul.go as methods. Each
 * remote call is an oracle parameter, and every method returns the remote calls it
 * issued, in order.
 */
module Consul {
  import opened Wrappers
  import opened Upstream
  import opened Catalog
  import opened AgentPool
  import opened ServiceCache
  import Reconcile

  class Consul {
    /** Agent address to client; an address gets a client on first use. */
    var agents: map<string, Client>
    /** Number of clients built so far; a new client takes the next serial. */
    var connections: nat
    /** Service identifier to cache entry. */
    var cache: Cache

    /** The pool fields as a value of `AgentPool`. */
    function PoolValue(): AgentPool.Pool
      reads this
    {
      AgentPool.Pool(agents, connections)
    }

    /** The whole reconciler as a value of `Reconcile`. */
    function AsState(): Reconcile.State
      reads this
    {
      Reconcile.State(PoolValue(), cache)
    }

    ghost predicate Valid()
      reads this
    {
      Reconcile.Consistent(AsState())
    }

    constructor ()
      ensures Valid()
      ensures agents == map[] && connections == 0 && cache == map[]
    {
      agents := map[];
      connections := 0;
      cache := map[];
    }

    /**
     * Builds a new client for `address`; none, and nothing built, for the empty address.
     * The transport configuration is not modelled.
     */
    method NewAgent(address: string) returns (client: Option<Client>)
      modifies this`connections
      ensures address == "" ==> client == None && connections == old(connections)
      ensures address != "" ==> client == Some(Client(address, old(connections)))
      ensures address != "" ==> connections == old(connections) + 1
    {
      if address == "" {
        return None;
      }
      client := Some(Client(address, connections));
      connections := connections + 1;
    }

    /** Makes sure `address` has a client, never replacing one that exists. */
    method Connect(address: string)
      requires Valid() && address != ""
      modifies this
      ensures Valid()
      ensures PoolValue() == AgentPool.Connect(old(PoolValue()), address)
      ensures cache == old(cache)
    {
      if address !in agents {
        var client := NewAgent(address);
        agents := agents[address := client.value];
      }
    }

    /** The client for `address`; none, and no change, for the empty address. */
    method ClientFor(address: string) returns (client: Option<Client>)
      requires Valid()
      modifies this
      ensures Valid()
      ensures (client, PoolValue()) == AgentPool.ClientFor(old(PoolValue()), address)
      ensures cache == old(cache)
    {
      if address == "" {
        return None;
      }
      Connect(address);
      client := Some(agents[address]);
    }

    /**
     * Registers one desired service, or only marks it when its identifier is cached;
     * the outcomes of the agent registration and of the upstream compare-and-swap are
     * `registerOk` and `cas`.
     */
    method Register(service: Service, registerOk: bool, cas: CasOutcome) returns (calls: seq<RemoteCall>)
      requires Valid() && (service.id in cache || service.agent != "")
      modifies this
      ensures Valid()
      ensures (AsState(), calls) == Reconcile.Register(old(AsState()), service, registerOk, cas)
    {
      if service.id in cache {
        cache := Mark(cache, service.id);
        return [];
      }
      Connect(service.agent);
      var reg := Payload(service);
      calls := [ServiceRegister(service.agent, reg)];
      if !registerOk {
        return;
      }
      var upstreamOk, casCalls := RegisterUpstream(service, cas);
      calls := calls + casCalls;
      assert calls == [ServiceRegister(service.agent, reg), Reconcile.UpstreamCas(service)];
      if !upstreamOk {
        return;
      }
      cache := cache[reg.id := NewEntry(reg, service.agent)];
      cache := Mark(cache, reg.id);
    }

    /**
     * Writes the upstream record of a service with a compare-and-swap against a nil
     * baseline; a key that already exists is success, only a failed call is not.
     */
    method RegisterUpstream(service: Service, cas: CasOutcome) returns (ok: bool, calls: seq<RemoteCall>)
      requires service.agent in agents
      ensures ok <==> cas != CasError
      ensures calls == [KvCas(service.agent, UpstreamKey(service.name, service.agent, service.port), UPSTREAM_VALUE)]
    {
      var key := UpstreamKey(service.name, service.agent, service.port);
      calls := [KvCas(service.agent, key, UPSTREAM_VALUE)];
      ok := cas != CasError;
    }

    /**
     * Deletes the upstream record of a registration, using the agent parsed out of its
     * identifier; nothing is deleted, and the result is success, when that agent has no
     * client. `deleteOk` is the outcome of the delete.
     */
    method DeregisterUpstream(reg: Registration, deleteOk: bool) returns (ok: bool, calls: seq<RemoteCall>)
      requires ':' in reg.id
      ensures AgentFromId(reg.id) in agents ==>
                calls == [KvDelete(AgentFromId(reg.id), UpstreamKey(reg.name, AgentFromId(reg.id), reg.port))]
                && ok == deleteOk
      ensures AgentFromId(reg.id) !in agents ==> calls == [] && ok
    {
      var fields := Split(reg.id, ':');
      SplitHasSecondField(reg.id, ':');
      var agent := fields[1];
      if '-' in agent {
        agent := Split(agent, '-')[0];
      }
      var key := UpstreamKey(reg.name, agent, reg.port);
      calls := [];
      ok := true;
      if agent in agents {
        calls := [KvDelete(agent, key)];
        ok := deleteOk;
      }
    }

    /** Deregisters one service identifier through the client of `agent`. */
    method DeregisterService(agent: string, reg: Registration, deregisterOk: bool) returns (ok: bool, calls: seq<RemoteCall>)
      requires Valid() && agent != ""
      modifies this
      ensures Valid()
      ensures PoolValue() == AgentPool.Connect(old(PoolValue()), agent) && cache == old(cache)
      ensures ok == deregisterOk && calls == [ServiceDeregister(agent, reg.id)]
    {
      Connect(agent);
      calls := [ServiceDeregister(agent, reg.id)];
      ok := deregisterOk;
    }

    /**
     * One visit of the sweep: a marked entry has its mark reset; an unmarked one is
     * deregistered, and on success its upstream record is deleted, whatever the outcome,
     * and the entry dropped.
     */
    method SweepEntry(id: string, deregisterOk: bool, deleteOk: bool) returns (calls: seq<RemoteCall>)
      requires Valid() && id in cache
      requires !cache[id].marked && deregisterOk ==> ':' in id
      modifies this
      ensures Valid()
      ensures agents == old(agents) && connections == old(connections)
      ensures cache == SweepStep(old(cache), id, deregisterOk)
      ensures calls == Reconcile.EntryCalls(agents, old(cache)[id], deregisterOk)
    {
      var entry := cache[id];
      calls := [];
      if IsValid(cache, id) {
        cache := ProcessDeregister(cache, id);
      } else {
        var ok, deregisterCalls := DeregisterService(entry.agent, entry.service, deregisterOk);
        calls := deregisterCalls;
        if ok {
          var _, deleteCalls := DeregisterUpstream(entry.service, deleteOk);
          calls := calls + deleteCalls;
          cache := cache - {id};
        }
      }
    }

    /**
     * The sweep, visiting the cache's identifiers in `order` (any order of the snapshot):
     * marked entries have their mark reset, unmarked entries are deregistered and dropped
     * when that succeeds, whatever becomes of their upstream record.
     */
    method Deregister(order: seq<string>, deregisterOk: string -> bool, deleteOk: string -> bool)
      returns (calls: seq<RemoteCall>)
      requires Valid()
      requires forall i, j | 0 <= i < j < |order| :: order[i] != order[j]
      requires forall k :: k in order <==> k in cache
      requires Reconcile.Parsable(cache, deregisterOk)
      modifies this
      ensures Valid()
      ensures agents == old(agents) && connections == old(connections)
      ensures cache == Swept(old(cache), deregisterOk)
      ensures calls == Reconcile.SweepCalls(old(cache), agents, order, deregisterOk)
    {
      ghost var start := cache;
      calls := [];
      var i := 0;
      while i < |order|
        invariant 0 <= i <= |order|
        invariant Valid()
        invariant agents == old(agents) && connections == old(connections)
        invariant cache == SweptOn(start, (set k | k in order[..i]), deregisterOk)
        invariant forall k | k in order[..i] :: k in start
        invariant calls == Reconcile.SweepCalls(start, agents, order[..i], deregisterOk)
      {
        var id := order[i];
        ghost var done := set k | k in order[..i];
        ghost var visited := order[..i + 1];
        assert visited == order[..i] + [id];
        assert visited[..i] == order[..i];
        assert (set k | k in visited) == done + {id};
        SweptOnStep(start, done, id, deregisterOk);
        Reconcile.SweepCallsSnoc(start, agents, order[..i], id, deregisterOk);
        var entryCalls := SweepEntry(id, deregisterOk(id), deleteOk(id));
        calls := calls + entryCalls;
        Reconcile.SweptOnConsistent(PoolValue(), start, visited, deregisterOk);
        i := i + 1;
      }
      assert order[..i] == order;
      assert (set k | k in order) == start.Keys;
    }
  }
}
