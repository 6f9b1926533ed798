/** The ways a call can end without a result. */
module Errors {
  datatype Error =
    | PacketTooLarge(size: nat)
    | PacketDecodingFailed
    | FrameTooLarge(size: nat)
    | FrameDecodingFailed
    | SendFailed
    | RecvFailed
    | Terminated
    | InvalidAttestation
    | HandshakeFailed
    | EncryptionFailed

  /** The transport itself failed, as opposed to something that was carried over it. */
  predicate IsTransport(e: Error) {
    e.RecvFailed? || e.Terminated?
  }
}
