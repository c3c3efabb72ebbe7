/**
 The event record of internal/events/types.go and the hash of internal/events/log.go.

 SHA-256 over the JSON envelope is modelled as a free constructor, `HashOf(envelope)`. That gives the
 two things the chain relies on without an axiom: different envelopes have different hashes, and no
 hash is the empty string that starts the chain.
 */
module Events {
  import opened Core

  datatype EventType =
    | RequestCreated
    | RequestApproved
    | RequestDenied
    | RequestExpired
    | RequestRevoked
    | ExecutionStarted
    | ExecutionSucceeded
    | ExecutionFailed
    | RecoveryMarkedFailed
    | Unsupported(name: string)

  /**
   The JSON payload of an event. The first six payloads are the ones `MarshalDetails` produces.
   `Foreign` is any other text, known by what each decoder makes of it.
   */
  datatype Details =
    | NoDetails
    | CreatedJson(request: Request)
    | ApprovalJson(approver: Actor, approvalCode: string)
    | DenialJson(approver: Actor, reason: string)
    | StartedJson(executor: string, digest: Digest)
    | FinishedJson(result: ExecutionResult)
    | RecoveryJson(message: string)
    | Foreign(text: string, asCreated: Option<Request>, asApproval: Option<Actor>,
              asDenial: Option<(Actor, string)>, asFinished: Option<ExecutionResult>)

  const NOBODY := Actor("", "")
  const ZERO_RESULT := ExecutionResult(0, 0, 0, "", "")
  const ZERO_REQUEST :=
    Request("", [], "", "", PeerIdentity(0, 0, 0, ""), "", 0, 0, Digest([], [], "", 0, "", 0), ExecutionSpec([], map[], ""))

  // The decoders. Decoding an empty payload fails; decoding an object that lacks a field leaves the
  // zero value there.

  function DecodeCreated(d: Details): Option<Request> {
    match d
    case NoDetails => None
    case CreatedJson(request) => Some(request)
    case Foreign(_, created, _, _, _) => created
    case _ => Some(ZERO_REQUEST)
  }

  function DecodeApproval(d: Details): Option<Actor> {
    match d
    case NoDetails => None
    case ApprovalJson(approver, _) => Some(approver)
    case DenialJson(approver, _) => Some(approver)
    case Foreign(_, _, approval, _, _) => approval
    case _ => Some(NOBODY)
  }

  function DecodeDenial(d: Details): Option<(Actor, string)> {
    match d
    case NoDetails => None
    case ApprovalJson(approver, _) => Some((approver, ""))
    case DenialJson(approver, reason) => Some((approver, reason))
    case Foreign(_, _, _, denial, _) => denial
    case _ => Some((NOBODY, ""))
  }

  function DecodeFinished(d: Details): Option<ExecutionResult> {
    match d
    case NoDetails => None
    case FinishedJson(result) => Some(result)
    case Foreign(_, _, _, _, finished) => finished
    case _ => Some(ZERO_RESULT)
  }

  datatype Hash = NoHash | HashOf(envelope: Envelope)

  datatype Envelope = Envelope(eventId: string, prevHash: Hash, requestId: string, timestamp: int,
                               actor: Actor, typ: EventType, details: Details)

  datatype Event = Event(eventId: string, prevHash: Hash, hash: Hash, requestId: string, timestamp: int,
                         actor: Actor, typ: EventType, details: Details)

  function HashEvent(e: Event): Hash {
    HashOf(Envelope(e.eventId, e.prevHash, e.requestId, e.timestamp, e.actor, e.typ, e.details))
  }

  /** An event as the broker hands it to the log: no id, no time and no hashes yet. */
  function Draft(requestId: string, actor: Actor, typ: EventType, details: Details): Event {
    Event("", NoHash, NoHash, requestId, 0, actor, typ, details)
  }
}
