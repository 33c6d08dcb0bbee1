/**
 * Configuration of the simulated 8N1 UART link: the frame layout and the
 * size of the circular buffers (uart_sim.h).
 */
module UartConfig {

  /** An unsigned 8-bit value, the C type `uint8_t`. */
  type uint8 = bv8

  /** Number of payload bits in one frame. */
  const UART_DATA_BITS: nat := 8

  /** The fixed value of the start bit that opens every frame. */
  const UART_START_BIT: uint8 := 0

  /** The fixed value of the stop bit that closes every frame. */
  const UART_STOP_BIT: uint8 := 1

  /** Symbols on the wire per frame: start, data bits, stop. */
  const UART_FRAME_SIZE: nat := 1 + UART_DATA_BITS + 1

  /** Number of byte slots in the storage of every buffer. */
  const MAX_BUFFER_SIZE: nat := 256

  /** The frame is ten symbols long and its two sentinels can be told apart. */
  lemma FrameLayout()
    ensures UART_FRAME_SIZE == 10
    ensures UART_START_BIT == 0 && UART_STOP_BIT == 1 && UART_START_BIT != UART_STOP_BIT
  {
  }
}
