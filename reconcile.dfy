/**
 * The reconciler's bookkeeping as functions on a value: what one registration and one
 * sweep do to the pool and the cache, and which remote calls they issue. The class in
 * module Consul is proved to follow these functions; the properties of a reconciliation
 * cycle are proved here.
 */
module Reconcile {
  import opened Wrappers
  import opened Upstream
  import opened Catalog
  import opened AgentPool
  import opened ServiceCache

  datatype State = State(pool: Pool, cache: Cache)

  /**
   * The pool is well formed, every entry is keyed by its registration's identifier, and
   * the agent it was registered through has a client.
   */
  predicate Consistent(st: State)
  {
    && WellFormed(st.pool)
    && forall id | id in st.cache ::
         st.cache[id].service.id == id && st.cache[id].agent in st.pool.clients
  }

  /**
   * The compare-and-swap that creates the upstream record of a service: sent through the
   * service's agent, with the fixed value, at the service's upstream key.
   */
  function UpstreamCas(s: Service): (r: RemoteCall)
    ensures r.KvCas? && r.agent == s.agent && r.value == UPSTREAM_VALUE
    ensures r.key == UpstreamKey(s.name, s.agent, s.port)
  {
    KvCas(s.agent, UpstreamKey(s.name, s.agent, s.port), UPSTREAM_VALUE)
  }

  /** Services that differ in name, agent or port write different upstream keys. */
  lemma UpstreamCasDistinct(s: Service, t: Service)
    requires '/' !in s.name && '/' !in t.name && ':' !in s.agent && ':' !in t.agent
    requires (s.name, s.agent, s.port) != (t.name, t.agent, t.port)
    ensures UpstreamCas(s).key != UpstreamCas(t).key
  {
    if UpstreamCas(s).key == UpstreamCas(t).key {
      UpstreamKeyInjective(s.name, s.agent, s.port, t.name, t.agent, t.port);
    }
  }

  /**
   * Registering one desired service. A cached identifier is only marked, with no remote
   * call and no change to the pool. Otherwise the agent gets a client and the service is
   * registered; the cache gains a marked entry only when both the registration and the
   * upstream compare-and-swap succeed, a key that already exists counting as success.
   */
  function Register(st: State, s: Service, registerOk: bool, cas: CasOutcome): (r: (State, seq<RemoteCall>))
    requires s.id in st.cache || s.agent != ""
    ensures Consistent(st) ==> Consistent(r.0)
    ensures s.id in st.cache ==> r.1 == [] && r.0 == State(st.pool, Mark(st.cache, s.id))
    ensures s.id !in st.cache ==> r.0.pool == Connect(st.pool, s.agent)
    ensures s.id !in st.cache ==> |r.1| >= 1 && r.1[0] == ServiceRegister(s.agent, Payload(s))
    ensures s.id !in st.cache && (!registerOk || cas == CasError) ==> r.0.cache == st.cache
    ensures s.id !in st.cache && registerOk && cas != CasError ==>
              && r.0.cache.Keys == st.cache.Keys + {s.id}
              && r.0.cache[s.id] == CacheEntry(Payload(s), s.agent, true)
              && forall id | id in st.cache :: r.0.cache[id] == st.cache[id]
    ensures registerOk ==> r.1 == [] || r.1 == [ServiceRegister(s.agent, Payload(s)), UpstreamCas(s)]
    ensures !registerOk ==> r.1 == [] || r.1 == [ServiceRegister(s.agent, Payload(s))]
  {
    if s.id in st.cache then
      (State(st.pool, Mark(st.cache, s.id)), [])
    else
      var pool := Connect(st.pool, s.agent);
      var reg := Payload(s);
      if !registerOk then
        (State(pool, st.cache), [ServiceRegister(s.agent, reg)])
      else if cas == CasError then
        (State(pool, st.cache), [ServiceRegister(s.agent, reg), UpstreamCas(s)])
      else
        (State(pool, Mark(st.cache[s.id := NewEntry(reg, s.agent)], s.id)),
         [ServiceRegister(s.agent, reg), UpstreamCas(s)])
  }

  /** Idempotent registration: once an identifier is cached, registering it again calls nothing. */
  lemma RegisterTwice(st: State, s: Service, again: Service, ok1: bool, cas1: CasOutcome, ok2: bool, cas2: CasOutcome)
    requires s.id in st.cache || s.agent != ""
    requires again.id == s.id
    requires s.id in Register(st, s, ok1, cas1).0.cache
    ensures var first := Register(st, s, ok1, cas1).0;
            var second := Register(first, again, ok2, cas2);
            second.1 == [] && second.0.cache.Keys == first.cache.Keys && second.0.pool == first.pool
  {
  }

  /** The delete that removes the upstream record of a registration, if its parsed agent has a client. */
  function DeleteCalls(pool: map<string, Client>, reg: Registration): (r: seq<RemoteCall>)
    requires ':' in reg.id
    ensures |r| <= 1
    ensures r != [] <==> AgentFromId(reg.id) in pool
    ensures r != [] ==> r[0] == KvDelete(AgentFromId(reg.id), UpstreamKey(reg.name, AgentFromId(reg.id), reg.port))
  {
    var agent := AgentFromId(reg.id);
    if agent in pool then [KvDelete(agent, UpstreamKey(reg.name, agent, reg.port))] else []
  }

  /**
   * For a service whose identifier embeds its agent as `<prefix>:<agent><suffix>`, the key
   * removed at deregistration is the key written at registration.
   */
  lemma DeleteKeyMatchesCasKey(s: Service, prefix: string, suffix: string)
    requires ':' !in prefix && ':' !in s.agent && '-' !in s.agent
    requires suffix == [] || suffix[0] == ':' || suffix[0] == '-'
    requires s.id == prefix + [':'] + s.agent + suffix
    ensures ':' in Payload(s).id
    ensures var reg := Payload(s);
            UpstreamKey(reg.name, AgentFromId(reg.id), reg.port) == UpstreamCas(s).key
  {
    AgentFromComposite(prefix, s.agent, suffix);
  }

  /** The remote calls the sweep issues for one entry. */
  function EntryCalls(pool: map<string, Client>, e: CacheEntry, deregistered: bool): seq<RemoteCall>
    requires !e.marked && deregistered ==> ':' in e.service.id
  {
    if e.marked then []
    else if deregistered then [ServiceDeregister(e.agent, e.service.id)] + DeleteCalls(pool, e.service)
    else [ServiceDeregister(e.agent, e.service.id)]
  }

  /**
   * One entry's calls: none for a live entry; for a stale one a deregistration first, then
   * at most one delete, and a delete only when the deregistration succeeded.
   */
  lemma EntryCallsShape(pool: map<string, Client>, e: CacheEntry, deregistered: bool)
    requires !e.marked && deregistered ==> ':' in e.service.id
    ensures var r := EntryCalls(pool, e, deregistered);
            && (r == [] <==> e.marked)
            && (!e.marked ==> r[0] == ServiceDeregister(e.agent, e.service.id))
            && |r| <= (if deregistered then 2 else 1)
            && (|r| == 2 ==> r[1..] == DeleteCalls(pool, e.service))
            && (forall call | call in r :: call.ServiceDeregister? || call.KvDelete?)
  {
  }

  /** Every stale entry whose deregistration succeeds has an identifier holding `:`. */
  predicate Parsable(c: Cache, deregisterOk: string -> bool)
  {
    forall id | id in c && !c[id].marked && deregisterOk(id) :: ':' in c[id].service.id
  }

  /** The remote calls of a sweep that visits `ks` in order. */
  function SweepCalls(c: Cache, pool: map<string, Client>, ks: seq<string>, deregisterOk: string -> bool): seq<RemoteCall>
    requires Parsable(c, deregisterOk)
    requires forall k | k in ks :: k in c
  {
    if ks == [] then []
    else
      var last := ks[|ks| - 1];
      SweepCalls(c, pool, ks[..|ks| - 1], deregisterOk) + EntryCalls(pool, c[last], deregisterOk(last))
  }

  /** Visiting one more identifier appends that entry's calls. */
  lemma SweepCallsSnoc(c: Cache, pool: map<string, Client>, ks: seq<string>, k: string, deregisterOk: string -> bool)
    requires Parsable(c, deregisterOk)
    requires forall x | x in ks :: x in c
    requires k in c
    ensures forall x | x in ks + [k] :: x in c
    ensures SweepCalls(c, pool, ks + [k], deregisterOk)
         == SweepCalls(c, pool, ks, deregisterOk) + EntryCalls(pool, c[k], deregisterOk(k))
  {
  }

  /**
   * The sweep issues only deregistrations and deletes, at most two per visited entry,
   * and none at all when every visited entry is live.
   */
  lemma {:induction false} SweepCallsKinds(c: Cache, pool: map<string, Client>, ks: seq<string>, deregisterOk: string -> bool)
    requires Parsable(c, deregisterOk)
    requires forall k | k in ks :: k in c
    ensures var r := SweepCalls(c, pool, ks, deregisterOk);
            && (forall call | call in r :: call.ServiceDeregister? || call.KvDelete?)
            && |r| <= 2 * |ks|
            && ((forall k | k in ks :: c[k].marked) ==> r == [])
    decreases |ks|
  {
    if ks != [] {
      var front, last := ks[..|ks| - 1], ks[|ks| - 1];
      assert forall k | k in front :: k in ks;
      SweepCallsKinds(c, pool, front, deregisterOk);
      EntryCallsShape(pool, c[last], deregisterOk(last));
    }
  }

  function DeregisteredIds(calls: seq<RemoteCall>): set<string>
  {
    set call | call in calls && call.ServiceDeregister? :: call.id
  }

  lemma DeregisteredIdsAppend(a: seq<RemoteCall>, b: seq<RemoteCall>)
    ensures DeregisteredIds(a + b) == DeregisteredIds(a) + DeregisteredIds(b)
  {
  }

  /** One entry's calls deregister its identifier exactly when it is stale. */
  lemma EntryDeregisters(pool: map<string, Client>, e: CacheEntry, deregistered: bool)
    requires !e.marked && deregistered ==> ':' in e.service.id
    ensures DeregisteredIds(EntryCalls(pool, e, deregistered)) == if e.marked then {} else {e.service.id}
  {
  }

  function StaleIn(c: Cache, ks: seq<string>): set<string>
    requires forall k | k in ks :: k in c
  {
    set k | k in ks && !c[k].marked
  }

  lemma StaleInSnoc(c: Cache, ks: seq<string>, k: string)
    requires forall x | x in ks :: x in c
    requires k in c
    ensures forall x | x in ks + [k] :: x in c
    ensures StaleIn(c, ks + [k]) == StaleIn(c, ks) + (if c[k].marked then {} else {k})
  {
  }

  /** The sweep asks the catalog to deregister exactly the stale entries it visits. */
  lemma {:induction false} SweepDeregistersStale(c: Cache, pool: map<string, Client>, ks: seq<string>, deregisterOk: string -> bool)
    requires Parsable(c, deregisterOk)
    requires forall k | k in ks :: k in c && c[k].service.id == k
    ensures DeregisteredIds(SweepCalls(c, pool, ks, deregisterOk)) == StaleIn(c, ks)
    decreases |ks|
  {
    if ks != [] {
      var front, last := ks[..|ks| - 1], ks[|ks| - 1];
      assert ks == front + [last];
      SweepDeregistersStale(c, pool, front, deregisterOk);
      SweepCallsSnoc(c, pool, front, last, deregisterOk);
      DeregisteredIdsAppend(SweepCalls(c, pool, front, deregisterOk), EntryCalls(pool, c[last], deregisterOk(last)));
      EntryDeregisters(pool, c[last], deregisterOk(last));
      StaleInSnoc(c, front, last);
    }
  }

  /**
   * A stale entry whose deregistration fails stays in the cache, unmarked, and the next
   * sweep asks the catalog to deregister it again.
   */
  lemma FailedDeregistrationRetried(
    c: Cache, pool: map<string, Client>, id: string,
    deregisterOk1: string -> bool, deregisterOk2: string -> bool, order2: seq<string>)
    requires id in c && !c[id].marked && !deregisterOk1(id)
    requires forall k | k in c :: c[k].service.id == k
    requires Parsable(Swept(c, deregisterOk1), deregisterOk2)
    requires forall k :: k in order2 <==> k in Swept(c, deregisterOk1)
    ensures id in Swept(c, deregisterOk1) && Swept(c, deregisterOk1)[id] == c[id]
    ensures id in DeregisteredIds(SweepCalls(Swept(c, deregisterOk1), pool, order2, deregisterOk2))
  {
    var swept := Swept(c, deregisterOk1);
    SweepDeregistersStale(swept, pool, order2, deregisterOk2);
  }

  /** A partly swept cache stays consistent with the pool. */
  lemma SweptOnConsistent(pool: Pool, c: Cache, visited: seq<string>, deregisterOk: string -> bool)
    requires Consistent(State(pool, c))
    ensures Consistent(State(pool, SweptOn(c, (set k | k in visited), deregisterOk)))
  {
  }

  /** The sweep on a whole state: the pool is left as it is. */
  function Sweep(st: State, deregisterOk: string -> bool): (r: State)
    ensures Consistent(st) ==> Consistent(r)
  {
    State(st.pool, Swept(st.cache, deregisterOk))
  }

  function Ids(ss: seq<Service>): set<string>
  {
    set s | s in ss :: s.id
  }

  /** Every presented service not already cached names its agent. */
  predicate AgentsGiven(c: Cache, ss: seq<Service>)
  {
    forall s | s in ss :: s.id in c || s.agent != ""
  }

  /**
   * The registration half of a reconciliation cycle: every desired service in turn, each
   * remote outcome drawn from the oracles by service identifier, and the remote calls of
   * the whole pass. Entries present before keep their registration and end marked exactly
   * when they were marked already or presented again; entries created are marked and
   * belong to presented services.
   */
  function RegisterAll(st: State, ss: seq<Service>, registerOk: string -> bool, cas: string -> CasOutcome)
    : (r: (State, seq<RemoteCall>))
    requires AgentsGiven(st.cache, ss)
    ensures Consistent(st) ==> Consistent(r.0)
    ensures st.cache.Keys <= r.0.cache.Keys
    ensures forall id | id in st.cache ::
              && r.0.cache[id].service == st.cache[id].service
              && r.0.cache[id].agent == st.cache[id].agent
              && (r.0.cache[id].marked <==> st.cache[id].marked || id in Ids(ss))
    ensures forall id | id in r.0.cache && id !in st.cache :: id in Ids(ss) && r.0.cache[id].marked
    decreases |ss|
  {
    if ss == [] then (st, [])
    else
      var (next, calls) := Register(st, ss[0], registerOk(ss[0].id), cas(ss[0].id));
      assert Ids(ss) == {ss[0].id} + Ids(ss[1..]) by {
        assert ss == [ss[0]] + ss[1..];
      }
      var (last, rest) := RegisterAll(next, ss[1..], registerOk, cas);
      (last, calls + rest)
  }

  /**
   * A pass caches every presented service whose registration and compare-and-swap
   * succeed, and a pass that presents only cached services issues no remote call.
   */
  lemma {:induction false} RegisterAllCaches(st: State, ss: seq<Service>, registerOk: string -> bool, cas: string -> CasOutcome)
    requires AgentsGiven(st.cache, ss)
    ensures var r := RegisterAll(st, ss, registerOk, cas).0;
            var calls := RegisterAll(st, ss, registerOk, cas).1;
            && (forall s | s in ss && registerOk(s.id) && cas(s.id) != CasError :: s.id in r.cache)
            && ((forall s | s in ss :: s.id in st.cache) ==> calls == [])
    decreases |ss|
  {
    if ss != [] {
      var next := Register(st, ss[0], registerOk(ss[0].id), cas(ss[0].id)).0;
      assert forall s | s in ss :: s == ss[0] || s in ss[1..] by {
        assert ss == [ss[0]] + ss[1..];
      }
      RegisterAllCaches(next, ss[1..], registerOk, cas);
    }
  }

  /**
   * Mark-and-sweep correctness: after a cycle that starts from a swept cache, an entry
   * that was there survives the sweep exactly when its service was presented again or
   * its deregistration failed; an entry created in the cycle survives; all marks are reset.
   */
  lemma CycleSweep(st: State, ss: seq<Service>, registerOk: string -> bool, cas: string -> CasOutcome, deregisterOk: string -> bool)
    requires Consistent(st) && AgentsGiven(st.cache, ss)
    requires forall id | id in st.cache :: !st.cache[id].marked
    ensures var registered := RegisterAll(st, ss, registerOk, cas).0;
            var after := Sweep(registered, deregisterOk);
            && Consistent(after)
            && (forall id | id in st.cache :: id in after.cache <==> id in Ids(ss) || !deregisterOk(id))
            && (forall id | id in registered.cache && id !in st.cache :: id in after.cache)
            && (forall id | id in after.cache :: !after.cache[id].marked)
  {
  }

  /**
   * Two cycles: the first presents A and B, both are registered and written upstream,
   * both end marked and survive the sweep; the second presents only A, which is marked
   * again without any remote call, while B is found stale, is the one identifier the
   * sweep deregisters and, its deregistration succeeding, is the one entry swept away.
   */
  lemma TwoCycleScenario(
    st: State, a: Service, b: Service,
    registerOk: string -> bool, cas: string -> CasOutcome,
    deregisterOk1: string -> bool, deregisterOk2: string -> bool, order2: seq<string>)
    requires st.cache == map[]
    requires a.agent != "" && b.agent != "" && a.id != b.id && ':' in b.id
    requires registerOk(a.id) && registerOk(b.id) && cas(a.id) != CasError && cas(b.id) != CasError
    requires deregisterOk2(b.id)
    requires forall k :: k in order2 <==> k == a.id || k == b.id
    ensures var cycle1 := RegisterAll(st, [a, b], registerOk, cas).0;
            var calls1 := RegisterAll(st, [a, b], registerOk, cas).1;
            var swept1 := Sweep(cycle1, deregisterOk1);
            var cycle2 := RegisterAll(swept1, [a], registerOk, cas).0;
            var calls2 := RegisterAll(swept1, [a], registerOk, cas).1;
            var swept2 := Sweep(cycle2, deregisterOk2);
            && cycle1.cache.Keys == {a.id, b.id}
            && cycle1.cache[a.id].marked && cycle1.cache[b.id].marked
            && calls1 == [ServiceRegister(a.agent, Payload(a)), UpstreamCas(a),
                          ServiceRegister(b.agent, Payload(b)), UpstreamCas(b)]
            && swept1.cache.Keys == {a.id, b.id}
            && cycle2.cache.Keys == {a.id, b.id}
            && cycle2.cache[a.id].marked && !cycle2.cache[b.id].marked
            && calls2 == []
            && Parsable(cycle2.cache, deregisterOk2)
            && (forall k | k in order2 :: k in cycle2.cache)
            && DeregisteredIds(SweepCalls(cycle2.cache, cycle2.pool.clients, order2, deregisterOk2)) == {b.id}
            && swept2.cache.Keys == {a.id}
  {
    FirstCycle(st, a, b, registerOk, cas);
    var cycle1 := RegisterAll(st, [a, b], registerOk, cas).0;
    SweepAllLive(cycle1, deregisterOk1);
    var swept1 := Sweep(cycle1, deregisterOk1);
    SecondPass(swept1, a, b, registerOk, cas);
    var cycle2 := RegisterAll(swept1, [a], registerOk, cas).0;
    SecondSweep(cycle2, a, b, deregisterOk2, order2);
  }

  /** Registering an uncached service whose registration and compare-and-swap succeed. */
  lemma RegisterFresh(st: State, s: Service, registerOk: bool, cas: CasOutcome)
    requires s.agent != "" && s.id !in st.cache && registerOk && cas != CasError
    ensures Register(st, s, registerOk, cas).0.cache == st.cache[s.id := CacheEntry(Payload(s), s.agent, true)]
    ensures Register(st, s, registerOk, cas).1 == [ServiceRegister(s.agent, Payload(s)), UpstreamCas(s)]
  {
  }

  lemma FirstCycle(st: State, a: Service, b: Service, registerOk: string -> bool, cas: string -> CasOutcome)
    requires st.cache == map[]
    requires a.agent != "" && b.agent != "" && a.id != b.id
    requires registerOk(a.id) && registerOk(b.id) && cas(a.id) != CasError && cas(b.id) != CasError
    ensures var cycle1 := RegisterAll(st, [a, b], registerOk, cas).0;
            var calls1 := RegisterAll(st, [a, b], registerOk, cas).1;
            && cycle1.cache.Keys == {a.id, b.id}
            && cycle1.cache[a.id] == CacheEntry(Payload(a), a.agent, true)
            && cycle1.cache[b.id] == CacheEntry(Payload(b), b.agent, true)
            && calls1 == [ServiceRegister(a.agent, Payload(a)), UpstreamCas(a),
                          ServiceRegister(b.agent, Payload(b)), UpstreamCas(b)]
  {
    PassOfTwo(st, a, b, registerOk, cas);
    RegisterFresh(st, a, registerOk(a.id), cas(a.id));
    var afterA := Register(st, a, registerOk(a.id), cas(a.id)).0;
    RegisterFresh(afterA, b, registerOk(b.id), cas(b.id));
  }

  /** A pass over two services is the registration of the first, then of the second. */
  lemma PassOfTwo(st: State, a: Service, b: Service, registerOk: string -> bool, cas: string -> CasOutcome)
    requires a.agent != "" && b.agent != ""
    ensures var first := Register(st, a, registerOk(a.id), cas(a.id));
            var second := Register(first.0, b, registerOk(b.id), cas(b.id));
            RegisterAll(st, [a, b], registerOk, cas) == (second.0, first.1 + second.1)
  {
    var afterA := Register(st, a, registerOk(a.id), cas(a.id)).0;
    var (afterB, callsB) := Register(afterA, b, registerOk(b.id), cas(b.id));
    assert [a, b][1..] == [b] && [b][1..] == [];
    RegisterAllStep(st, [a, b], registerOk, cas);
    RegisterAllStep(afterA, [b], registerOk, cas);
    assert RegisterAll(afterB, [], registerOk, cas) == (afterB, []);
    assert callsB + [] == callsB;
  }

  /** A pass over a non-empty sequence registers the first service, then the rest. */
  lemma RegisterAllStep(st: State, ss: seq<Service>, registerOk: string -> bool, cas: string -> CasOutcome)
    requires ss != [] && AgentsGiven(st.cache, ss)
    ensures var first := Register(st, ss[0], registerOk(ss[0].id), cas(ss[0].id));
            var rest := RegisterAll(first.0, ss[1..], registerOk, cas);
            RegisterAll(st, ss, registerOk, cas) == (rest.0, first.1 + rest.1)
  {
  }

  /** A sweep of a cache whose entries are all live drops none of them and resets every mark. */
  lemma SweepAllLive(st: State, deregisterOk: string -> bool)
    requires forall id | id in st.cache :: st.cache[id].marked && st.cache[id].service.id == id
    ensures var swept := Sweep(st, deregisterOk);
            && swept.cache.Keys == st.cache.Keys
            && forall id | id in swept.cache :: !swept.cache[id].marked && swept.cache[id].service.id == id
  {
  }

  lemma SecondPass(swept1: State, a: Service, b: Service, registerOk: string -> bool, cas: string -> CasOutcome)
    requires swept1.cache.Keys == {a.id, b.id}
    requires forall id | id in swept1.cache :: !swept1.cache[id].marked && swept1.cache[id].service.id == id
    requires a.agent != "" && a.id != b.id
    ensures var cycle2 := RegisterAll(swept1, [a], registerOk, cas).0;
            var calls2 := RegisterAll(swept1, [a], registerOk, cas).1;
            && cycle2.cache.Keys == {a.id, b.id}
            && cycle2.cache[a.id].marked && !cycle2.cache[b.id].marked
            && (forall id | id in cycle2.cache :: cycle2.cache[id].service.id == id)
            && calls2 == []
  {
  }

  lemma SecondSweep(cycle2: State, a: Service, b: Service, deregisterOk2: string -> bool, order2: seq<string>)
    requires cycle2.cache.Keys == {a.id, b.id}
    requires cycle2.cache[a.id].marked && !cycle2.cache[b.id].marked
    requires forall id | id in cycle2.cache :: cycle2.cache[id].service.id == id
    requires a.id != b.id && ':' in b.id && deregisterOk2(b.id)
    requires forall k :: k in order2 <==> k == a.id || k == b.id
    ensures Parsable(cycle2.cache, deregisterOk2)
    ensures forall k | k in order2 :: k in cycle2.cache
    ensures DeregisteredIds(SweepCalls(cycle2.cache, cycle2.pool.clients, order2, deregisterOk2)) == {b.id}
    ensures Sweep(cycle2, deregisterOk2).cache.Keys == {a.id}
  {
    SweepDeregistersStale(cycle2.cache, cycle2.pool.clients, order2, deregisterOk2);
    assert StaleIn(cycle2.cache, order2) == {b.id};
  }
}
