/** The compile-time constants of the daemon.
    They are left symbolic: every result holds for any values of the stated types, in particular
    for the shipped ones (1559 slots, pages of 4096 bytes, 32512 pages per message, 128 MB). */
module Constants {
  type Positive = x: nat | 0 < x witness 1

  type Byte = x: nat | x < 256

  type RingSize = x: nat | 3 <= x witness 1559

  const PAGE_SIZE: Positive
  const MAX_PAGES_SEND: Positive
  const APERTURE_SIZE_QUEUE: Positive
  const LTCP_MSG_QUEUE_SIZE: RingSize

  /** A cursor never rests on the last slot, so this many slots are ever used. */
  const USED_SLOTS: nat := LTCP_MSG_QUEUE_SIZE - 1
}
