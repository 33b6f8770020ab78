/** Types shared by every component of the model. */
module Common {

  datatype Option<+T> = None | Some(value: T)

  newtype byte = x: int | 0 <= x < 256

  type Bytes = seq<byte>
}

/** The limits of memnode/config.py that the modelled code reads. */
module Config {
  const MAX_FRAME_SIZE: nat := 16 * 1024 * 1024
  const MAX_BLOCK_SIZE: nat := 64 * 1024 * 1024
  const MAX_RPC_MESSAGE_SIZE: nat := 8 * 1024 * 1024
  const MAX_INBOUND_STREAMS: nat := 64
  const INBOUND_STREAM_TIMEOUT: real := 120.0
  const MAX_SEQ: nat := 0xFFFF_FFFF_FFFF_FFFF
}
