# UART simulator core in Dafny

A model of the two cores of an educational UART simulator (`uart_sim.c`,
`uart_sim.h`) and proofs about them:

- **The 8N1 frame codec.** A byte is wrapped in a frame of start bit (0),
  eight data bits and stop bit (1). A frame is validated, start bit first,
  and decoded back into its byte. The frame is sent on the wire as ten
  symbols: start, data bits least significant first, stop. Validation and
  the wire order sit inside the print routines `simulate_reception` and
  `simulate_transmission` in the C code. Here they are the pure functions
  `Validate`, `Receive` and `BitSequence`. `PackBits` / `FrameFromBits`
  reassemble a frame from its symbols. They are the independent inverse
  against which the wire order is proved lossless.
- **The circular byte buffer** behind the TX and RX queues. The class
  `UartBuffer` holds the C struct's fields: a 256-slot `data` array,
  `head` (write cursor), `tail` (read cursor), `count` and `capacity`. A
  ghost field `contents` holds the queue they represent. `Valid()` ties
  them together. The C functions take a pointer that may be null, so
  `Init`, `Write`, `Read`, `IsEmpty`, `IsFull` and `Count` take a
  `UartBuffer?`. The null case follows the C code: writes and reads fail,
  and the queries answer empty, full and 0.
- **The link** (module `UartLink`). `Transmit` is the byte loop of
  `transmit_data`: write to TX, stop at the first refusal, write the
  byte to RX. `PeekAll` is the display loop of
  `receive_data`: it drains a copy of the struct and leaves the original
  alone. Client methods prove three buffer scenarios: read-back order, a
  full buffer at 256, and the end-to-end FIFO law.

Modules: `UartConfig` (constants and `uint8`), `FrameCodec`,
`CircularBuffer`, `UartLink`, one per file.

Modelling choices that follow the code:

- `buffer_is_full` tests `count >= capacity`. Under the invariant this is
  the same as `count == capacity`, and `IsFull` proves the `==` form about
  `contents`.
- `buffer_read` returns a flag and writes the byte through an out-pointer.
  The model's `Read` returns both as a pair of results.
- Frame validation is not a function of its own in the code. It is the two
  early returns in `simulate_reception`.

## Model

| member | source | states |
|---|---|---|
| `UartConfig.FrameLayout` | uart_sim.h:11-14 | A frame is 1 + 8 + 1 = 10 symbols. The start sentinel is 0, the stop sentinel is 1, and they differ. |
| `FrameCodec.Encode` | uart_sim.c:70-78 | The frame has start bit 0 and stop bit 1, and carries the given byte as its data field. |
| `FrameCodec.Decode` | uart_sim.c:83-87 | Decoding ignores the sentinels. Re-encoding the result gives the frame with its sentinels repaired. A well-formed frame is exactly the encoding of its decoded byte. |
| `FrameCodec.Validate` | uart_sim.c:163-173 | Ok iff both sentinels are right. InvalidStartBit iff the start bit is wrong, whatever the stop bit. InvalidStopBit iff the start bit is right and the stop bit is wrong. |
| `FrameCodec.Receive` | uart_sim.c:162-178 | A frame is decoded iff it validates, and the decoded byte re-encodes to that very frame. A rejected frame carries the validation failure. |
| `FrameCodec.EncodeDecodeRoundTrip` | uart_sim.c:70-87 | `Decode(Encode(b)) == b` for every byte. Every encoded frame validates Ok and is received as that byte. |
| `FrameCodec.ValidIffEncoded` | uart_sim.c:163-175 | A frame validates Ok exactly when it is the encoding of some byte (both directions). |
| `FrameCodec.StartBitCheckedFirst` | uart_sim.c:163-167 | A frame with a wrong start bit is rejected as InvalidStartBit, and so is the same frame with any stop bit. |
| `FrameCodec.DataBit` | uart_sim.c:141 | The data symbol `(data >> i) & 1` is 0 or 1, and it is 1 exactly when bit i of the byte is set. |
| `FrameCodec.DataBitsFrom` | uart_sim.c:140-143 | The data symbols from position k on: 8 - k of them, element j being bit k + j of the byte. |
| `FrameCodec.BitSequence` | uart_sim.c:136-148 | Exactly 10 symbols. The first is the frame's start field, symbol i for i = 1..8 is data bit i - 1 (LSB first), and the last is the stop field. |
| `FrameCodec.PackDataBits` | uart_sim.c:140-143 | The eight data symbols on the wire reassemble to the payload byte. |
| `FrameCodec.BitSequenceRoundTrip` | uart_sim.c:136-146 | Rebuilding a frame from its 10 wire symbols gives back the frame, for every frame, corrupt ones included. |
| `FrameCodec.BitSequenceInjective` | uart_sim.c:136-146 | Two frames with the same wire sequence are equal. |
| `FrameCodec.EncodedBitsAreBinary` | uart_sim.c:122-146 | An encoded byte goes on the wire as ten binary symbols, starting with 0 and ending with 1. |
| `FrameCodec.BitSequenceOf0xB1` | uart_sim.c:137-146 | The byte 0xB1 is sent as 0,1,0,0,0,1,1,0,1,1. |
| `CircularBuffer.UartBuffer.constructor` | main.c:44-49 | A freshly declared and initialised buffer: own fresh storage, invariant holds, empty, cursors 0, capacity 256, all slots 0. |
| `CircularBuffer.UartBuffer.Copy` | uart_sim.c:267 | A struct copy: fresh storage with the same slot values, the same cursors, count, capacity and queue. |
| `CircularBuffer.Init` | uart_sim.c:6-14 | On a non-null buffer: all 256 slots are 0, head = tail = count = 0, capacity = 256, the queue is empty and the invariant holds. A null buffer is ignored. |
| `CircularBuffer.IsEmpty` | uart_sim.c:49-51 | True on null. Otherwise true iff the queue is empty; the answer comes from the count alone. |
| `CircularBuffer.IsFull` | uart_sim.c:56-58 | True on null. Otherwise true iff the queue holds `capacity` bytes. |
| `CircularBuffer.Count` | uart_sim.c:63-65 | 0 on null. Otherwise the length of the queue, never above the capacity. |
| `CircularBuffer.CursorsMeetWhenEmptyOrFull` | uart_sim.h:28-30 | `head == tail` iff the buffer is empty or full, so equal cursors cannot tell the two apart. |
| `CircularBuffer.ModBelowTwice` | uart_sim.c:25 | For a position below twice the capacity, `% capacity` is a single wrap-around, so the C cursor updates and the model's `Wrap` agree. |
| `CircularBuffer.CursorsModuloCapacity` | uart_sim.c:24-25 | Under the invariant `head == (tail + count) % capacity`, and queued byte i sits in slot `(tail + i) % capacity`. |
| `CircularBuffer.Write` | uart_sim.c:19-29 | Null or full (`count >= capacity`): false, with storage, cursors and count unchanged. Otherwise true: the byte is stored at the old head, the other slots are kept, head advances by one and wraps to 0 at the capacity (`Wrap`, equal to the C `% capacity` by `ModBelowTwice`), count grows by one, the byte is appended to the back of the queue, and the invariant is kept. |
| `CircularBuffer.Read` | uart_sim.c:34-44 | Null or empty: false, nothing changes. Otherwise true: returns `data[tail]`, the front of the queue, and removes it. Tail advances by one and wraps to 0 at the capacity, and count drops by one. Head, capacity and storage are untouched, and the invariant is kept. |
| `UartLink.Relay` | uart_sim.c:227-245 | One byte of the loop. TX takes the byte iff it had room, appending it to its queue. RX appends it iff TX took it and RX had room; otherwise RX is unchanged. Both invariants and capacities are kept. |
| `UartLink.Transmit` | uart_sim.c:226-249 | Both invariants and both capacities are kept. TX accepts `min(len, free TX slots)` input bytes, in order, and the loop stops at the first refusal. RX gets the accepted bytes that fit in its free slots, in order. |
| `UartLink.PeekAll` | uart_sim.c:257-274 | Shows exactly the queued bytes, oldest first, and an empty sequence for null. The buffer itself is not modified: the method has no modifies clause. |
| `UartLink.ReadBackScenario` | uart_sim.c:19-44 | After writing 65 and 66 to a fresh buffer, the reads return 65 and then 66, and a third read fails. |
| `UartLink.CapacityScenario` | uart_sim.c:19-29 | On a fresh buffer 256 writes succeed and the 257th fails. After one read, one more write succeeds. |
| `UartLink.EndToEnd` | uart_sim.c:226-274 | FIFO law: any input of at most 256 bytes sent through a fresh link is accepted in full, and displaying RX shows exactly that input in order. |

## Left out

- All console output and input: `print_binary`, `print_uart_frame`, the banners of `simulate_transmission` and `simulate_reception`, `display_menu`, `show_buffer_status`, `show_uart_info`, and the printable-character rendering. Only the validation and the wire order are kept from them.
- Input handling in `transmit_data`: `fgets` into a 100-byte array, newline stripping, the "no data" message and the "press Enter" pauses. `Transmit` takes the bytes already read. For an empty input its loop does nothing, as the C code does after its message.
- The calls of `simulate_transmission` and `simulate_reception` in the loop of `transmit_data` (uart_sim.c:236-240): they only print, and the byte goes to RX whatever they find. Their wire order and validation are `BitSequence` and `Validate`, and `EncodeDecodeRoundTrip` proves that the frame the loop builds is always accepted as the same byte, which is why the error paths of validation are never reached there.
- The `y/N` prompt in `receive_data`. Answering yes calls `init_uart_buffer`, which is `Init`.
- `clear_buffers`: it is two calls of `init_uart_buffer`, covered by `Init`.
- The `main` menu loop and its `scanf` handling. Only the declaration and initialisation of the two buffers is modelled, as the `UartBuffer` constructor. A buffer struct that was never initialised is not modelled.
- `Read`: on failure its byte result is 0. The C code leaves the caller's variable as it was. The null `data` out-pointer check (uart_sim.c:35) has no counterpart, because nothing in the model can be null there.
- `Transmit` requires the TX and RX buffers to be distinct objects with distinct storage, which is how `main` calls it. Aliased buffers are not modelled.
- `size_t` width: counts and cursors are unbounded naturals bounded by the invariant (at most 256), so no wrap-around can occur. `memset` is modelled as a loop that stores 0 in every slot.
- `Valid()` admits any capacity from 1 to 256, while the code only ever sets 256. The cursor arithmetic is stated and proved for the field's value, so the proofs cover the code's case.
