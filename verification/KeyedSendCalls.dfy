/** The service's two calls around a keyed send, as they drive the store. */
module KeyedSendCalls {
  import opened Wrappers
  import opened SqliteStore
  import KeyedSend
  import ServiceRequests

  /** A closed store fails before its write. */
  function Effective(closed: bool, fault: Fault): Fault {
    if closed then BeforeWrite else fault
  }

  /** The answer the caller acts on; an error when the store throws or hands back an empty response. */
  method ClaimKeyedSend(capability: KeyedSend.Capability, store: SqlitePersistenceStore, key: string, hash: string,
                        createdAt: int, fault: Fault)
    returns (r: Result<KeyedSend.ClaimOutcome, StoreError>)
    requires store.Valid()
    modifies store`requests
    ensures store.Valid()
    ensures var (t', outcome) := KeyedSend.ClaimKeyedSend(capability, old(store.requests), key, hash, createdAt);
            && (!capability.Atomic? ==> store.requests == old(store.requests) && r == Ok(outcome))
            && (capability.Atomic? ==>
                  && store.requests == (if Effective(store.closed, fault) == BeforeWrite then old(store.requests) else t')
                  && (r.Ok? <==> Effective(store.closed, fault) == NoFault && outcome != KeyedSend.Malformed)
                  && (r.Ok? ==> r.value == outcome))
    ensures Effective(store.closed, fault) == NoFault && capability.Atomic? ==>
              (r == Ok(KeyedSend.GoAhead) <==> key !in old(store.requests))
  {
    if capability.NoStore? { return Ok(KeyedSend.GoAhead); }
    if capability.NotAtomic? { return Ok(KeyedSend.Unsupported); }
    var result := store.ClaimServiceRequest(key, hash, createdAt, fault);
    if result.Err? { return Err(result.error); }
    match result.value
    case Reserved => r := Ok(KeyedSend.GoAhead);
    case Pending => r := Ok(KeyedSend.Waiting);
    case Conflict => r := Ok(KeyedSend.HashConflict);
    case Stored(json) => r := if |json| > 0 then Ok(KeyedSend.Replay(json)) else Err(OperationFailed);
  }

  /** True when the response was stored; whatever the store throws is swallowed. */
  method CompleteKeyedSend(capability: KeyedSend.Capability, store: SqlitePersistenceStore, key: string, hash: string,
                           json: string, createdAt: int, fault: Fault)
    returns (stored: bool)
    requires store.Valid()
    modifies store`requests
    ensures store.Valid()
    ensures (store.requests, stored) == KeyedSend.CompleteKeyedSend(capability, old(store.requests), key, hash, json, createdAt,
                                                                    Effective(store.closed, fault))
  {
    if capability.NoStore? { return true; }
    if capability.NotAtomic? { return false; }
    ServiceRequests.CompleteInOneStep(store.requests, key, hash, json, createdAt);
    var done := store.CompleteServiceRequest(key, hash, json, createdAt, fault, store.requests);
    stored := done.Ok?;
  }
}
