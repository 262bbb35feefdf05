/** Frames as the two agents see them once decoded. */
module Frames {
  import opened Common

  const DATA_UP := 1
  const DATA_DOWN := 2
  const PING := 3
  const PONG := 4
  const ACK_UP := 5
  const ACK_DOWN := 6

  const FLAG_PARITY := 1

  const MAX_FRAGMENT_PAYLOAD := 1391
  const MAX_MESSAGE_SIZE := 60000
  const MAX_FRAGMENTS := 256

  const AEAD_TAG_SIZE := 16
  const HEADER_SIZE := 65
  const FRAME_OVERHEAD := HEADER_SIZE + AEAD_TAG_SIZE

  datatype Frame = Frame(
    kind: int,
    flags: int,
    tunnelId: Bytes,
    session: int,
    sequence: int,
    timestamp: int,
    messageId: int,
    messageLen: int,
    index: int,
    count: int,
    payload: Bytes)
  {
    predicate IsParity() { flags == FLAG_PARITY }

    predicate IsData() { kind == DATA_UP || kind == DATA_DOWN }

    /** The metadata rules that the encoder and the decoder both enforce. */
    predicate WellFormed() {
      && DATA_UP <= kind <= ACK_DOWN
      && 0 <= flags <= FLAG_PARITY
      && |payload| <= MAX_FRAGMENT_PAYLOAD
      && 0 <= messageId < 0x1_0000_0000_0000_0000
      && 0 <= messageLen <= MAX_MESSAGE_SIZE
      && 1 <= count <= MAX_FRAGMENTS
      && (if IsParity() then count >= 2 && index == count else 0 <= index < count)
      && (!IsData() ==> flags == 0 && messageId == 0 && index == 0 && count == 1 && messageLen == |payload|)
    }
  }
}
