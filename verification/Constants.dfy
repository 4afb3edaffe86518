/** Sizes and types that several files of the engine share. */
module Constants {

  type byte = b: nat | b < 0x100

  const TP_BLOCK_SIZE: nat := 128
  const TP_MAX_LEVELS: nat := 8
}
