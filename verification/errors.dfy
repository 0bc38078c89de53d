/**
 * The error values the backend reports: three sentinel errors and the
 * content-verification error that wraps the cause of a rejected submission.
 */
module Errors {

  datatype Error =
    | ProposalNotFound
    | Shutdown
    | InvalidTransition
      /** A submission with unacceptable file formats or corrupt data. */
    | ContentVerification(err: Error)
      /** Any other error value, known only by its message (a decoder's, a digest check's). */
    | Cause(message: string)
  {
    /**
     * The error's message, as Go's Error() method returns it: however deeply
     * content-verification errors are nested, the innermost cause's message.
     */
    function Message(): (m: string)
      ensures ContentVerification? ==> m == Unwrapped().Message()
    {
      match this
      case ProposalNotFound => "proposal not found"
      case Shutdown => "backend is shutting down"
      case InvalidTransition => "invalid proposal status transition"
      case ContentVerification(inner) => inner.Message()
      case Cause(m) => m
    }

    /** The error with every content-verification wrapper removed. */
    function Unwrapped(): (e: Error)
      ensures !e.ContentVerification?
      ensures ContentVerification? ==> e < this
    {
      if ContentVerification? then err.Unwrapped() else this
    }
  }

  /** A content-verification error reports exactly the message of the error it wraps. */
  lemma ContentVerificationMessage(cause: Error)
    ensures ContentVerification(cause).Message() == cause.Message()
  {
  }

  /** The three sentinel errors carry pairwise distinct, non-empty messages. */
  lemma SentinelMessagesDistinct()
    ensures ProposalNotFound.Message() != Shutdown.Message()
    ensures ProposalNotFound.Message() != InvalidTransition.Message()
    ensures Shutdown.Message() != InvalidTransition.Message()
    ensures ProposalNotFound.Message() != "" && Shutdown.Message() != "" && InvalidTransition.Message() != ""
  {
  }
}
