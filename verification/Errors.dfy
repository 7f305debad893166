/** Errors as far as callers tell them apart: what `errors.Is` finds in them. */
module Errors {
  import opened Bytes

  datatype Kind =
    | Canceled
    | DeadlineExceeded
    | ProtocolViolation
    | ShortWrite
    | Transport
    | RemoteFailure
    | SizeMismatch
    | ChecksumMismatch
    | LocalFailure
    | RecoveryUnconfirmed

  /** A bare remote error keeps its reason; anything joined or wrapped keeps its kinds. */
  datatype Error = NoError | RemoteError(reason: seq<Byte>) | Wrapped(kinds: set<Kind>)
  {
    predicate Is(kind: Kind) {
      match this
      case NoError => false
      case RemoteError(_) => kind == RemoteFailure
      case Wrapped(kinds) => kind in kinds
    }

    /** The caller's operation was interrupted, as opposed to refused or garbled. */
    predicate Interrupted() { Is(Canceled) || Is(DeadlineExceeded) }
  }

  function Kinds(e: Error): (kinds: set<Kind>)
    ensures forall k :: e.Is(k) <==> k in kinds
  {
    match e
    case NoError => {}
    case RemoteError(_) => {RemoteFailure}
    case Wrapped(kinds) => kinds
  }

  function Joined(a: Error, b: Error): (r: Error)
    ensures r.NoError? <==> a.NoError? && b.NoError?
    ensures forall k :: r.Is(k) <==> a.Is(k) || b.Is(k)
  {
    if a.NoError? && b.NoError? then NoError else Wrapped(Kinds(a) + Kinds(b))
  }
}
