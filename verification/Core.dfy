/** The records of internal/core/types.go. */
module Core {

  datatype Option<+T> = None | Some(value: T)

  datatype Result<+T, +E> = Ok(value: T) | Err(error: E)

  /** Go's `uint32`. */
  type Uint32 = n: nat | n < 0x1_0000_0000

  /** The eight statuses a request can have; "rejected" and "error" occur in responses only. */
  datatype Status = Pending | Approved | Denied | Expired | Executing | Executed | Failed | Revoked
  {
    predicate Terminal() {
      this in {Denied, Expired, Executed, Failed, Revoked}
    }

    /** How far along its life a request is; terminal statuses come last. */
    function Rank(): nat {
      match this
      case Pending => 1
      case Approved => 2
      case Executing => 3
      case _ => 4
    }

    /** The request has been approved and not revoked since. */
    predicate Granted() {
      this in {Approved, Executing, Executed, Failed}
    }

    /** The approval has been consumed by an execution. */
    predicate Consumed() {
      this in {Executing, Executed, Failed}
    }
  }

  datatype Actor = Actor(kind: string, id: string)

  datatype PeerIdentity = PeerIdentity(uid: Uint32, gid: Uint32, pid: int, username: string)

  datatype ExecutionSpec = ExecutionSpec(argv: seq<string>, env: map<string, string>, cwd: string)

  /**
   The request digest. SHA-256 over an injective encoding is modelled as a free constructor: two
   digests are equal exactly when the six encoded fields are.
   */
  datatype Digest = Digest(argv: seq<string>, env: seq<string>, cwd: string,
                           uid: Uint32, requestId: string, expiry: int)

  /** Times are instants counted in nanoseconds. */
  datatype Request = Request(id: string, argv: seq<string>, reason: string, mode: string,
                             requester: PeerIdentity, host: string, createdAt: int, expiresAt: int,
                             digest: Digest, spec: ExecutionSpec)

  datatype ExecutionResult = ExecutionResult(startedAt: int, finishedAt: int, exitCode: int,
                                             stdout: string, stderr: string)
}
