/**
 * The simulated link: the orchestration that moves bytes from the input
 * through the TX buffer into the RX buffer, and the non-destructive display
 * of the RX buffer (uart_sim.c, transmit_data and receive_data, without
 * their console I/O).
 */
module UartLink {
  import opened UartConfig
  import opened CircularBuffer

  function Min(a: nat, b: nat): (m: nat)
  {
    if a <= b then a else b
  }

  /** Extending a prefix of the input by its next byte. */
  lemma AppendNext(front: seq<uint8>, input: seq<uint8>, n: nat)
    requires n < |input|
    ensures front + input[..n] + [input[n]] == front + input[..n + 1]
  {
  }

  /**
   * One pass of the loop of `transmit_data`: the byte is written to TX; if
   * TX accepts it, it is written to RX, where a full buffer loses it.
   * `accepted` says whether TX took the byte. The framing and reception the
   * loop shows in between print only; `FrameCodec.EncodeDecodeRoundTrip` says
   * what they would find: every such frame is accepted as the same byte.
   */
  method Relay(tx: UartBuffer, rx: UartBuffer, x: uint8) returns (accepted: bool)
    requires tx.Valid() && rx.Valid()
    requires tx != rx && tx.data != rx.data
    modifies tx, tx.data, rx, rx.data
    ensures tx.Valid() && rx.Valid()
    ensures tx.capacity == old(tx.capacity) && rx.capacity == old(rx.capacity)
    ensures accepted == (old(|tx.contents|) < tx.capacity)
    ensures tx.contents == if accepted then old(tx.contents) + [x] else old(tx.contents)
    ensures rx.contents == if accepted && old(|rx.contents|) < rx.capacity then old(rx.contents) + [x] else old(rx.contents)
  {
    accepted := Write(tx, x);
    if !accepted {
      return;
    }
    var stored := Write(rx, x);
  }

  /**
   * The loop of `transmit_data`: the bytes are relayed in order, and the loop
   * stops at the first byte TX refuses. `sent` is the number of bytes TX
   * accepted; RX keeps those of them that fit.
   */
  method Transmit(tx: UartBuffer, rx: UartBuffer, input: seq<uint8>) returns (sent: nat)
    requires tx.Valid() && rx.Valid()
    requires tx != rx && tx.data != rx.data
    modifies tx, tx.data, rx, rx.data
    ensures tx.Valid() && rx.Valid()
    ensures tx.capacity == old(tx.capacity) && rx.capacity == old(rx.capacity)
    ensures sent == Min(|input|, old(tx.capacity - tx.count))
    ensures tx.contents == old(tx.contents) + input[..sent]
    ensures rx.contents == old(rx.contents) + input[..Min(sent, old(rx.capacity - rx.count))]
  {
    ghost var txFree := tx.capacity - tx.count;
    ghost var rxFree := rx.capacity - rx.count;
    sent := 0;
    while sent < |input|
      invariant sent <= |input| && sent <= txFree
      invariant tx.Valid() && rx.Valid()
      invariant tx.capacity == old(tx.capacity) && rx.capacity == old(rx.capacity)
      invariant tx.contents == old(tx.contents) + input[..sent]
      invariant rx.contents == old(rx.contents) + input[..Min(sent, rxFree)]
    {
      var accepted := Relay(tx, rx, input[sent]);
      if !accepted {
        break;
      }
      AppendNext(old(tx.contents), input, sent);
      if sent < rxFree {
        AppendNext(old(rx.contents), input, sent);
      }
      sent := sent + 1;
    }
  }

  /**
   * The display loop of `receive_data`: a null or empty buffer shows nothing;
   * otherwise the struct is copied and the copy is drained with `Read`, so
   * the bytes shown are the queue in FIFO order and the buffer itself, which
   * this method may not modify, keeps them.
   */
  method PeekAll(b: UartBuffer?) returns (shown: seq<uint8>)
    requires b != null ==> b.Valid()
    ensures shown == if b == null then [] else b.contents
  {
    if IsEmpty(b) {
      return [];
    }
    var temp := new UartBuffer.Copy(b);
    shown := [];
    while true
      invariant fresh(temp) && fresh(temp.data)
      invariant temp.Valid()
      invariant shown + temp.contents == b.contents
      decreases |temp.contents|
    {
      var ok, x := Read(temp);
      if !ok {
        break;
      }
      shown := shown + [x];
    }
  }

  /** Write 'A' and 'B', read them back in order, then a read of the empty buffer fails. */
  method ReadBackScenario() returns (first: uint8, second: uint8, thirdRead: bool)
    ensures first == 65 && second == 66 && !thirdRead
  {
    var b := new UartBuffer();
    var ok := Write(b, 65);
    ok := Write(b, 66);
    ok, first := Read(b);
    ok, second := Read(b);
    var x;
    thirdRead, x := Read(b);
  }

  /**
   * Fill a fresh buffer: all 256 writes succeed, the 257th is refused, and
   * after one read one more write succeeds.
   */
  method CapacityScenario() returns (allAccepted: bool, overflowAccepted: bool, refillAccepted: bool)
    ensures allAccepted && !overflowAccepted && refillAccepted
  {
    var b := new UartBuffer();
    var i := 0;
    allAccepted := true;
    while i < MAX_BUFFER_SIZE
      invariant 0 <= i <= MAX_BUFFER_SIZE
      invariant b.Valid() && b.capacity == MAX_BUFFER_SIZE && |b.contents| == i
      invariant allAccepted
    {
      var ok := Write(b, i as uint8);
      allAccepted := allAccepted && ok;
      i := i + 1;
    }
    overflowAccepted := Write(b, 0);
    var ok, x := Read(b);
    refillAccepted := Write(b, 0);
  }

  /**
   * The FIFO law end to end: bytes that fit are transmitted into a fresh
   * link, and displaying the RX buffer shows exactly them, in order.
   */
  method EndToEnd(input: seq<uint8>) returns (sent: nat, shown: seq<uint8>)
    requires |input| <= MAX_BUFFER_SIZE
    ensures sent == |input| && shown == input
  {
    var tx := new UartBuffer();
    var rx := new UartBuffer();
    sent := Transmit(tx, rx, input);
    assert input[..|input|] == input;
    shown := PeekAll(rx);
  }
}
