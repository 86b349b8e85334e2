/** Octets as they travel over the serial line to the modem. */
module Bytes {

  /** One byte of a frame; Python's `bytes` elements are exactly these values. */
  type Byte = bv8
}
