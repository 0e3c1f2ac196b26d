/**
 * What the reconciler exchanges with the outside: the desired services handed in by
 * task discovery, the registration payload sent to an agent, and the remote calls
 * issued against the catalog and the key/value store.
 */
module Catalog {
  import opened Wrappers

  /** Health-check descriptor of a task. */
  datatype Check = Check(ttl: string, script: string, http: string, interval: string)

  /** One desired service, produced per running task by task discovery. */
  datatype Service = Service(
    id: string,
    name: string,
    agent: string,
    port: int,
    address: string,
    tags: seq<string>,
    check: Check)

  /** The payload registered with an agent; `tags` is left unset when there are none. */
  datatype Registration = Registration(
    id: string,
    name: string,
    port: int,
    address: string,
    tags: Option<seq<string>>,
    check: Check)

  /** What a compare-and-swap against a nil baseline reports. */
  datatype CasOutcome =
    | Written        // the key did not exist and now holds the value
    | AlreadyExists  // the key existed; nothing was written
    | CasError       // the call itself failed

  /** A remote call, addressed to the agent whose connection carries it. */
  datatype RemoteCall =
    | ServiceRegister(agent: string, registration: Registration)
    | KvCas(agent: string, key: string, value: string)
    | KvDelete(agent: string, key: string)
    | ServiceDeregister(agent: string, id: string)

  /** Builds the registration payload for a desired service. */
  function Payload(s: Service): (r: Registration)
    ensures r.id == s.id && r.name == s.name && r.port == s.port
    ensures r.address == s.address && r.check == s.check
    ensures r.tags.Some? <==> |s.tags| > 0
    ensures r.tags.Some? ==> r.tags.value == s.tags
  {
    Registration(s.id, s.name, s.port, s.address, if |s.tags| > 0 then Some(s.tags) else None, s.check)
  }
}
