/**
 * The registration cache: service identifier to the registration sent and the agent
 * used, with a liveness mark that a pass sets and the sweep resets.
 */
module ServiceCache {
  import opened Catalog

  datatype CacheEntry = CacheEntry(service: Registration, agent: string, marked: bool)

  type Cache = map<string, CacheEntry>

  /** A new entry starts unmarked. */
  function NewEntry(reg: Registration, agent: string): CacheEntry
  {
    CacheEntry(reg, agent, false)
  }

  /** Marks the entry for `id` live; no effect when `id` is absent. */
  function Mark(c: Cache, id: string): (r: Cache)
    ensures r.Keys == c.Keys
    ensures id in c ==> r[id] == c[id].(marked := true)
    ensures forall k | k in c && k != id :: r[k] == c[k]
  {
    if id in c then c[id := c[id].(marked := true)] else c
  }

  /** The entry for `id` was marked live since the last sweep. */
  predicate IsValid(c: Cache, id: string)
  {
    id in c && c[id].marked
  }

  /** Marking makes exactly the entry for `id`, when present, valid; resetting makes it invalid. */
  lemma MarkValidates(c: Cache, id: string)
    ensures IsValid(Mark(c, id), id) <==> id in c
    ensures !IsValid(ProcessDeregister(c, id), id)
    ensures forall k | k != id :: IsValid(Mark(c, id), k) == IsValid(c, k)
    ensures forall k | k != id :: IsValid(ProcessDeregister(c, id), k) == IsValid(c, k)
  {
  }

  /**
   * A new entry holds the registration and the agent and is not yet valid; marking it
   * right after storing it, as registration does, makes it valid.
   */
  lemma NewEntryValidOnceMarked(c: Cache, reg: Registration, agent: string)
    ensures var stored := c[reg.id := NewEntry(reg, agent)];
            && stored[reg.id].service == reg && stored[reg.id].agent == agent
            && !IsValid(stored, reg.id)
            && IsValid(Mark(stored, reg.id), reg.id)
  {
  }

  /** Resets the mark of a live entry for the next pass. */
  function ProcessDeregister(c: Cache, id: string): (r: Cache)
    ensures r.Keys == c.Keys
    ensures id in c ==> r[id] == c[id].(marked := false)
    ensures forall k | k in c && k != id :: r[k] == c[k]
  {
    if id in c then c[id := c[id].(marked := false)] else c
  }

  /**
   * One step of the sweep for `id`: a live entry has its mark reset; a stale entry is
   * dropped when its catalog deregistration succeeded and kept otherwise.
   */
  function SweepStep(c: Cache, id: string, deregistered: bool): (r: Cache)
    ensures r.Keys <= c.Keys
    ensures IsValid(c, id) ==> id in r && r[id] == c[id].(marked := false)
    ensures id in c && !c[id].marked ==> (id in r <==> !deregistered)
    ensures id in c && !c[id].marked && !deregistered ==> r[id] == c[id]
    ensures forall k | k in c && k != id :: k in r && r[k] == c[k]
  {
    if IsValid(c, id) then ProcessDeregister(c, id)
    else if deregistered then c - {id}
    else c
  }

  /** The cache once the sweep has visited exactly the identifiers in `done`. */
  function SweptOn(c: Cache, done: set<string>, deregisterOk: string -> bool): Cache
  {
    map id | id in c && (id !in done || c[id].marked || !deregisterOk(id)) ::
      if id in done then c[id].(marked := false) else c[id]
  }

  /** Visiting one more identifier is one sweep step on the partly swept cache. */
  lemma SweptOnStep(c: Cache, done: set<string>, id: string, deregisterOk: string -> bool)
    requires id in c && id !in done
    ensures id in SweptOn(c, done, deregisterOk)
    ensures SweptOn(c, done, deregisterOk)[id] == c[id]
    ensures SweptOn(c, done + {id}, deregisterOk)
         == SweepStep(SweptOn(c, done, deregisterOk), id, deregisterOk(id))
  {
  }

  /**
   * The whole sweep: marked entries stay with their mark reset, unmarked entries go
   * when their deregistration succeeds and stay untouched when it fails, and nothing
   * is added.
   */
  function Swept(c: Cache, deregisterOk: string -> bool): (r: Cache)
    ensures r.Keys <= c.Keys
    ensures forall id | id in c && c[id].marked :: id in r && r[id] == c[id].(marked := false)
    ensures forall id | id in c && !c[id].marked && deregisterOk(id) :: id !in r
    ensures forall id | id in c && !c[id].marked && !deregisterOk(id) :: id in r && r[id] == c[id]
    ensures forall id | id in r :: !r[id].marked
  {
    SweptOn(c, c.Keys, deregisterOk)
  }
}
