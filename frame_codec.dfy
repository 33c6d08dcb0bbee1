/**
 * The 8N1 frame codec: a byte becomes a frame of start bit, eight data bits
 * and stop bit, and a frame is checked and turned back into a byte
 * (uart_sim.c, encode_uart_frame, decode_uart_frame, and the validation and
 * wire order used by simulate_reception and simulate_transmission).
 */
module FrameCodec {
  import opened UartConfig

  /**
   * A UART frame. Every field is a full byte, as in the C struct, so frames
   * whose start or stop field holds any other value are representable.
   */
  datatype Frame = Frame(startBit: uint8, dataBits: uint8, stopBit: uint8)

  /** Outcome of checking a frame's two sentinels, start bit first. */
  datatype ValidationResult = Ok | InvalidStartBit | InvalidStopBit

  /** What the receiver makes of a frame: the payload, or why it was refused. */
  datatype Reception = Decoded(value: uint8) | Rejected(reason: ValidationResult)

  /** Both sentinels hold their fixed values. */
  predicate WellFormed(f: Frame)
  {
    f.startBit == UART_START_BIT && f.stopBit == UART_STOP_BIT
  }

  /** Wrap a byte in a frame; the sentinels are always set to their fixed values. */
  function Encode(data: uint8): (f: Frame)
    ensures WellFormed(f)
    ensures f.dataBits == data
  {
    Frame(UART_START_BIT, data, UART_STOP_BIT)
  }

  /**
   * Extract the payload without looking at the sentinels: re-encoding the
   * result gives the frame with its sentinels repaired, and a well-formed
   * frame back unchanged.
   */
  function Decode(f: Frame): (data: uint8)
    ensures Encode(data) == Frame(UART_START_BIT, f.dataBits, UART_STOP_BIT)
    ensures WellFormed(f) ==> Encode(data) == f
  {
    f.dataBits
  }

  /** Check the start bit, and only if it is right, the stop bit. */
  function Validate(f: Frame): (r: ValidationResult)
    ensures r == Ok <==> WellFormed(f)
    ensures r == InvalidStartBit <==> f.startBit != UART_START_BIT
    ensures r == InvalidStopBit <==> f.startBit == UART_START_BIT && f.stopBit != UART_STOP_BIT
  {
    if f.startBit != UART_START_BIT then InvalidStartBit
    else if f.stopBit != UART_STOP_BIT then InvalidStopBit
    else Ok
  }

  /** The receiver: only a frame that passes validation is decoded. */
  function Receive(f: Frame): (r: Reception)
    ensures r.Decoded? <==> Validate(f) == Ok
    ensures r.Decoded? ==> Encode(r.value) == f
    ensures r.Rejected? ==> r.reason == Validate(f) && r.reason != Ok
  {
    match Validate(f)
    case Ok => Decoded(Decode(f))
    case InvalidStartBit => Rejected(InvalidStartBit)
    case InvalidStopBit => Rejected(InvalidStopBit)
  }

  /** Decoding an encoded byte gives it back, and every encoded frame is accepted. */
  lemma EncodeDecodeRoundTrip(data: uint8)
    ensures Decode(Encode(data)) == data
    ensures Validate(Encode(data)) == Ok
    ensures Receive(Encode(data)) == Decoded(data)
  {
  }

  /** A frame validates exactly when it is the encoding of some byte. */
  lemma ValidIffEncoded(f: Frame)
    ensures Validate(f) == Ok <==> exists data :: Encode(data) == f
  {
    if Validate(f) == Ok {
      assert Encode(f.dataBits) == f;
    }
  }

  /** A bad start bit is reported as such whatever the stop bit holds. */
  lemma StartBitCheckedFirst(f: Frame, stop: uint8)
    requires f.startBit != UART_START_BIT
    ensures Receive(f) == Rejected(InvalidStartBit)
    ensures Receive(f.(stopBit := stop)) == Rejected(InvalidStartBit)
  {
  }

  /** Data bit i of a byte, the value `(data >> i) & 1` the transmitter sends. */
  function DataBit(data: uint8, i: nat): (b: uint8)
    requires i < UART_DATA_BITS
    ensures b <= 1
    ensures b == 1 <==> data & (1 << i) != 0
  {
    (data >> i) & 1
  }

  /** The data bits from position k upward, in the order the loop over i sends them. */
  function DataBitsFrom(data: uint8, k: nat): (bits: seq<uint8>)
    requires k <= UART_DATA_BITS
    ensures |bits| == UART_DATA_BITS - k
    ensures forall i :: 0 <= i < |bits| ==> bits[i] == DataBit(data, k + i)
    decreases UART_DATA_BITS - k
  {
    if k == UART_DATA_BITS then [] else [DataBit(data, k)] + DataBitsFrom(data, k + 1)
  }

  /** All eight data bits of a byte in wire order, least significant first. */
  function DataBitSequence(data: uint8): (bits: seq<uint8>)
  {
    DataBitsFrom(data, 0)
  }

  /** The symbols put on the wire for a frame: start, data bits LSB first, stop. */
  function BitSequence(f: Frame): (bits: seq<uint8>)
    ensures |bits| == UART_FRAME_SIZE
    ensures bits[0] == f.startBit
    ensures forall i :: 1 <= i <= UART_DATA_BITS ==> bits[i] == DataBit(f.dataBits, i - 1)
    ensures bits[UART_FRAME_SIZE - 1] == f.stopBit
  {
    [f.startBit] + DataBitSequence(f.dataBits) + [f.stopBit]
  }

  /**
   * Reassemble a byte from its bits, least significant first: the inverse of
   * the wire order, used to prove it loses nothing.
   */
  function PackBits(bits: seq<uint8>): (data: uint8)
    requires |bits| <= UART_DATA_BITS
  {
    if bits == [] then 0 else (bits[0] & 1) | (PackBits(bits[1..]) << 1)
  }

  /** Rebuild a frame from the ten symbols of the wire. */
  function FrameFromBits(bits: seq<uint8>): (f: Frame)
    requires |bits| == UART_FRAME_SIZE
  {
    Frame(bits[0], PackBits(bits[1..UART_FRAME_SIZE - 1]), bits[UART_FRAME_SIZE - 1])
  }

  /** Packing from position k takes bit k and puts the bits above it one place higher. */
  lemma PackStep(bits: seq<uint8>, k: nat)
    requires k < |bits| <= UART_DATA_BITS
    ensures PackBits(bits[k..]) == (bits[k] & 1) | (PackBits(bits[k + 1..]) << 1)
  {
  }

  /** The data bits put on the wire determine the payload byte. */
  lemma PackDataBits(data: uint8)
    ensures PackBits(DataBitSequence(data)) == data
  {
    var bits := DataBitSequence(data);
    assert bits[UART_DATA_BITS..] == [];
    PackStep(bits, 7);
    PackStep(bits, 6);
    PackStep(bits, 5);
    PackStep(bits, 4);
    PackStep(bits, 3);
    PackStep(bits, 2);
    PackStep(bits, 1);
    PackStep(bits, 0);
    assert bits[0..] == bits;
    assert bits[0] == DataBit(data, 0) && bits[1] == DataBit(data, 1);
    assert bits[2] == DataBit(data, 2) && bits[3] == DataBit(data, 3);
    assert bits[4] == DataBit(data, 4) && bits[5] == DataBit(data, 5);
    assert bits[6] == DataBit(data, 6) && bits[7] == DataBit(data, 7);
  }

  /** The wire sequence loses nothing: the frame can be rebuilt from it. */
  lemma BitSequenceRoundTrip(f: Frame)
    ensures FrameFromBits(BitSequence(f)) == f
  {
    var bits := BitSequence(f);
    assert bits[1..UART_FRAME_SIZE - 1] == DataBitSequence(f.dataBits);
    PackDataBits(f.dataBits);
  }

  /** Different frames are sent as different symbol sequences. */
  lemma BitSequenceInjective(f: Frame, g: Frame)
    ensures BitSequence(f) == BitSequence(g) ==> f == g
  {
    BitSequenceRoundTrip(f);
    BitSequenceRoundTrip(g);
  }

  /** An encoded byte goes on the wire as ten binary symbols, 0 first and 1 last. */
  lemma EncodedBitsAreBinary(data: uint8)
    ensures BitSequence(Encode(data))[0] == 0
    ensures BitSequence(Encode(data))[UART_FRAME_SIZE - 1] == 1
    ensures forall i :: 0 <= i < UART_FRAME_SIZE ==> BitSequence(Encode(data))[i] <= 1
  {
  }

  /** The wire order of 0xB1 ('10110001'). */
  lemma BitSequenceOf0xB1()
    ensures BitSequence(Encode(0xB1)) == [0, 1, 0, 0, 0, 1, 1, 0, 1, 1]
  {
  }
}
