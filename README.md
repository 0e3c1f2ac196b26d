# Reconciliation core of mesos-consul, in Dafny

This project models the reconciliation engine of `consul/consul.go`, the bridge that registers
orchestrator tasks as services with Consul agents. It has three parts:

- **Agent connection pool.** The `agents` map holds one client per agent address. A client is
  created on first use and is never replaced.
- **Registration with cache deduplication.** A service whose identifier is already cached is only
  marked live. Otherwise the service is registered with its agent, and then gets an upstream
  record in the key/value store through a compare-and-swap (CAS). A cache entry appears only when
  both steps succeed, and a CAS that finds the key already present counts as success.
- **Mark-and-sweep deregistration.** Marked entries have their mark reset. Unmarked (stale)
  entries are deregistered from the catalog. They leave the cache only when that call succeeds,
  and then their upstream record is deleted. The agent for that delete is parsed back out of the
  service identifier.

Layout, one module per file:

- `wrappers.dfy`: `Option`.
- `upstream.dfy`: the pure string functions.
  - the upstream key `upstreams/<name>/<agent>:<port>`, with Go's `%d` rendering of the port;
  - `strings.Split` and `strings.Join` on one character;
  - the agent-from-identifier parser.
- `catalog.dfy`: services, registration payloads, CAS outcomes and the remote calls.
- `agent_pool.dfy`: the pool as a value, and what `Connect` and `ClientFor` do to it.
- `service_cache.dfy`: the cache helpers (`CacheMark`, `CacheIsValid`, `CacheProcessDeregister`,
  `newCacheEntry`) and the sweep as functions on the cache map.
- `reconcile.dfy`: one registration and one sweep as functions on a (pool, cache) state, plus the
  properties of whole reconciliation cycles.
- `consul.dfy`: class `Consul`. Its fields `agents`, `connections` and `cache` are updated in
  place by its methods. `Connect`, `ClientFor`, `Register`, `DeregisterService`, `SweepEntry`
  and `Deregister` are proved to follow the functions in `reconcile.dfy`, `agent_pool.dfy` and
  `service_cache.dfy`. `NewAgent` states its result directly: no client for the empty address,
  otherwise a client with the next serial. `RegisterUpstream` and `DeregisterUpstream` state
  theirs directly too, in terms of the key and parse functions of `upstream.dfy`. `Deregister`
  is a loop over a snapshot of the cache keys.

Remote calls (`ServiceRegister`, `KV().CAS`, `KV().Delete`, `ServiceDeregister`) are oracle
parameters that give each call's outcome. Every method returns the remote calls it issued, in
order. That is what lets "a cached service makes no remote call" and "the sweep deregisters
exactly the stale entries" be stated.

Where `consul/consul.go` is more specific than its comments, the model follows the code:

- The agent used to delete an upstream record is re-derived from the identifier: its second
  `:` field, cut at the first `-`. It is not the agent stored in the cache entry.
- If the agent name itself contains a `-`, the key deleted is therefore not the key written.
  `Upstream.DashedAgentNotRecovered` proves this.
- When the identifier embeds a `-`-free agent, the two keys agree
  (`Reconcile.DeleteKeyMatchesCasKey`).
- The cache helpers are defined outside `consul/consul.go` (see below). They are modelled
  from their call sites:
  - one boolean mark per entry;
  - a new entry starts unmarked and is then marked;
  - `CacheIsValid` means "marked";
  - `CacheProcessDeregister` resets the mark.

## Model

| member | source | states |
|---|---|---|
| Upstream.Itoa | consul/consul.go:140 | the port's `%d` rendering never contains the key separators `:` or `/` |
| Upstream.ItoaRoundTrip | consul/consul.go:140 | reading the rendered port back gives the port, so different ports render differently |
| Upstream.UpstreamKeyLayout | consul/consul.go:140 | the key written at line 140, and rebuilt at line 161, is `upstreams/`, the service name, `/`, the agent, `:` and the port's rendering, each piece at its own position |
| Upstream.UpstreamKeyInjective | consul/consul.go:140 | distinct (name, agent, port) triples get distinct keys `upstreams/<name>/<agent>:<port>`, when names have no `/` and agents no `:` |
| Upstream.Split | consul/consul.go:156 | splitting gives at least one field; no field contains the separator; the first field is a prefix of the input |
| Upstream.SplitJoin | consul/consul.go:156 | joining the fields of a split with the separator gives the input back |
| Upstream.JoinSplit | consul/consul.go:156 | splitting a join of separator-free fields gives the fields back |
| Upstream.SplitHasSecondField | consul/consul.go:156-157 | the second field (`agents[1]`) exists exactly when the identifier contains `:` |
| Upstream.AgentFromId | consul/consul.go:156-160 | defined for every identifier containing `:`; the parsed agent contains neither `:` nor `-` |
| Upstream.AgentFromComposite | consul/consul.go:156-160 | for `<prefix>:<agent><suffix>` with a `:`/`-`-free agent and a suffix that is empty or starts with `:` or `-`, the parse returns the agent |
| Upstream.AgentFromExampleId | consul/consul.go:156-160 | `web-1:agentA-3` yields agent `agentA` |
| Upstream.DashedAgentNotRecovered | consul/consul.go:156-161 | an agent name containing `-` is cut at the dash, so the key deleted differs from the key written at line 140 |
| Catalog.Payload | consul/consul.go:106-121 | the payload copies ID, name, port, address and check; tags are set exactly when the service has tags, and then equal them |
| AgentPool.Connect | consul/consul.go:36-39 | afterwards the address has a client; the key set grows by that address only; existing clients are kept as they are; a present address leaves the pool unchanged; well-formedness is kept; a new client is a different object from every existing one |
| AgentPool.ClientFor | consul/consul.go:30-42 | the empty address gives no client and leaves the pool unchanged; any other address gives the pool's client for it after `Connect`; a present client is returned unchanged |
| ServiceCache.NewEntryValidOnceMarked | consul/consul.go:134-135 | a new entry (`newCacheEntry`) holds the payload and the agent and is not valid; marking it right after storing it makes it valid |
| ServiceCache.MarkValidates | consul/consul.go:177-178 | `CacheIsValid` holds after `CacheMark` exactly when the ID is cached, never after `CacheProcessDeregister`, and neither changes the validity of another ID |
| ServiceCache.Mark | consul/consul.go:95 | marking keeps the key set, marks the entry for the ID if present, and changes no other entry |
| ServiceCache.ProcessDeregister | consul/consul.go:178 | resetting keeps the key set, unmarks the entry for the ID, and changes no other entry |
| ServiceCache.SweepStep | consul/consul.go:177-189 | one visit: a marked entry stays with its mark reset; an unmarked entry is removed exactly when deregistration succeeded, and is kept unchanged when it failed; no other entry changes and none is added |
| ServiceCache.SweptOnStep | consul/consul.go:176-189 | visiting one more unvisited identifier is one sweep step applied to the partly swept cache |
| ServiceCache.Swept | consul/consul.go:175-193 | after the sweep no entry is added; marked entries stay, unmarked; unmarked entries whose deregistration succeeded are gone; unmarked entries whose deregistration failed stay unchanged; no entry is marked |
| Reconcile.UpstreamCas | consul/consul.go:140-144 | the CAS goes through the service's agent, carries the fixed value and targets the service's upstream key |
| Reconcile.UpstreamCasDistinct | consul/consul.go:140 | services that differ in name, agent or port CAS different keys, when names have no `/` and agents no `:` |
| Reconcile.Register | consul/consul.go:92-136 | a cached ID is only marked, whatever the agent, with no call and no pool change; otherwise the agent gets a client and the service is registered; on register failure or CAS error the cache is unchanged; on success exactly one marked entry keyed by the ID with the payload and agent is added and the others are kept; consistency is preserved |
| Reconcile.RegisterTwice | consul/consul.go:93-97 | once an ID is cached, registering it again, with any agent, issues no remote call and keeps the cache keys and the pool |
| Reconcile.DeleteCalls | consul/consul.go:161-168 | at most one delete; a delete is issued exactly when the parsed agent has a client, and its key is `upstreams/<name>/<parsed agent>:<port>` |
| Reconcile.DeleteKeyMatchesCasKey | consul/consul.go:140-161 | for an ID that embeds the service's `-`-free agent, the key deleted at deregistration equals the key created by the CAS |
| Reconcile.EntryCallsShape | consul/consul.go:177-191 | a live entry makes no call; a stale entry makes a deregistration first, then at most one delete (the one of `DeleteCalls`), and a delete only when the deregistration succeeded; nothing else |
| Reconcile.SweepCallsKinds | consul/consul.go:176-191 | the sweep issues only deregistrations and deletes, at most two per visited entry, and none when every visited entry is live |
| Reconcile.SweepCallsSnoc | consul/consul.go:176-191 | visiting one more identifier appends that entry's calls to the sweep's calls |
| Reconcile.SweepDeregistersStale | consul/consul.go:176-184 | the sweep asks the catalog to deregister exactly the unmarked entries it visits |
| Reconcile.FailedDeregistrationRetried | consul/consul.go:181-184 | a stale entry whose deregistration fails stays unchanged, and the next sweep deregisters it again |
| Reconcile.Sweep | consul/consul.go:175-193 | the sweep over a whole state keeps it consistent |
| Reconcile.RegisterAll | consul/consul.go:92-136 | after a pass of registrations, earlier entries keep their payload and agent and are marked exactly when already marked or presented again; new entries are marked and belong to presented services; consistency is preserved |
| Reconcile.RegisterAllCaches | consul/consul.go:92-136 | after a pass, every presented service whose registration and CAS succeeded is cached; a pass that presents only cached services issues no remote call |
| Reconcile.CycleSweep | consul/consul.go:175-193 | after a cycle that starts from a swept cache, an earlier entry survives the sweep exactly when it was presented again or its deregistration failed; new entries survive; all marks are reset |
| Reconcile.TwoCycleScenario | consul/consul.go:92-193 | cycle 1 presents A and B: each is registered and CAS-written, in that order, and both get cached, marked, and survive the sweep; cycle 2 presents only A: A is re-marked with no remote call, B is stale, the sweep deregisters B and no other ID, and afterwards the cache holds only A |
| Consul.Consul.constructor | consul/consul.go:21-26 | a new reconciler has an empty pool and has built no client; its `cache` field, which stands for the package-level cache (see "Left out"), starts empty |
| Consul.Consul.NewAgent | consul/consul.go:47-90 | the empty address gives no client and builds nothing; any other address gives a new client for it, with the next serial |
| Consul.Consul.Connect | consul/consul.go:99-102 | the pool becomes `AgentPool.Connect` of the old pool; the cache is unchanged |
| Consul.Consul.ClientFor | consul/consul.go:30-42 | returns the client, and changes the pool, as `AgentPool.ClientFor` says; the cache is unchanged |
| Consul.Consul.Register | consul/consul.go:92-136 | the new pool, the new cache and the calls issued are those of `Reconcile.Register` on the old state |
| Consul.Consul.RegisterUpstream | consul/consul.go:138-152 | issues one CAS of the fixed value at `upstreams/<name>/<agent>:<port>`; succeeds both when the key is written and when it already exists, and fails only on a CAS error |
| Consul.Consul.DeregisterUpstream | consul/consul.go:154-170 | when the agent parsed from the ID has a client, deletes its key and reports the delete's outcome; otherwise issues nothing and reports success |
| Consul.Consul.DeregisterService | consul/consul.go:195-202 | makes sure the agent has a client, issues one deregister for the ID, and reports its outcome |
| Consul.Consul.SweepEntry | consul/consul.go:177-191 | one visit changes the cache as `ServiceCache.SweepStep` says and issues that entry's calls; the pool is unchanged |
| Consul.Consul.Deregister | consul/consul.go:175-193 | for any order of the cache's keys, the new cache is `ServiceCache.Swept` of the old one, whatever the upstream deletes return; the pool is unchanged; the calls are the entries' calls in visiting order |

## Left out

- Client construction in `newAgent` (consul/consul.go:53-89) is not modelled: TLS, scheme, token, basic auth and `consulapi.NewClient`. A client is an opaque token `Client(address, serial)`, and construction always succeeds, so the `log.Fatal` at line 87 is out of scope.
- The remote calls are not modelled as I/O. Each is an outcome parameter: a boolean for register, deregister and delete, and `Written`/`AlreadyExists`/`CasError` for the CAS. In `Deregister`, and in the pass `Reconcile.RegisterAll`, they are functions of the service identifier, so a pass that presents the same identifier twice gives both presentations the same outcome.
- Logging has no effect on the model and is left out.
- The JSON value of the upstream record (line 141) is an opaque constant.
- Go's map iteration order in `Deregister` is a parameter `order`, which may be any arrangement of the cache's keys without repeats.
- Consul.Consul.Register requires a non-empty agent for a service whose identifier is not cached. Such a service reaches line 99, where the source would store a nil client at line 101 and dereference it at line 123. A cached identifier is marked and returns at lines 93-97 without reading the agent, so any agent is accepted there. `Reconcile.Register`, and `Reconcile.AgentsGiven` for a whole pass, carry the same condition.
- Consul.Consul.Deregister requires every stale entry whose deregistration succeeds to have a `:` in its identifier. Without one, the source indexes out of range at line 157.
- Consul.Consul.RegisterUpstream requires the agent to have a client already, as its only caller guarantees. Otherwise the source would dereference a nil client at line 144.
- `serviceCache` is a package-level variable in the source. Here it is the `cache` field of the reconciler object.
- The cache helpers `serviceCache`, `newCacheEntry`, `CacheMark`, `CacheIsValid` and `CacheProcessDeregister` are defined outside `consul/consul.go`. They are modelled as their call sites in that file use them.
- The `config` field and the configuration values are not modelled. Only `newAgent` reads them.
- Concurrency: the source has none, and callers are assumed not to overlap reconciliation cycles.
