/**
 * Fixed-width integers and the Linux SocketCAN `struct can_frame`
 * (classic CAN, 8 data bytes) as the driver sees them.
 */
module CanTypes {
  type uint8 = x: int | 0 <= x < 0x100
  type uint32 = x: int | 0 <= x < 0x1_0000_0000

  /** CAN_MAX_DLEN: the data bytes of a classic CAN frame. */
  const CanMaxDlen: nat := 8

  /** sizeof(struct can_frame): 4-byte id, dlc, three pad/reserved bytes, 8 data bytes. */
  const CanFrameSize: nat := 16

  /** C's implicit conversion of a value to an 8-bit unsigned field (keeps the low byte). */
  function ToUint8(x: nat): (b: uint8)
  {
    x % 0x100
  }

  /** C's implicit conversion of a value to a 32-bit unsigned field. */
  function ToUint32(x: nat): (w: uint32)
  {
    x % 0x1_0000_0000
  }

  /** The fixed `data[8]` buffer of a frame; only the first `canDlc` bytes are meaningful. */
  type Payload = s: seq<uint8> | |s| == 8 witness [0, 0, 0, 0, 0, 0, 0, 0]

  datatype CanFrame = CanFrame(canId: uint32, canDlc: uint8, data: Payload)
}
