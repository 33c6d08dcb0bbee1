/**
 * The fixed-capacity circular byte buffer used for the TX and RX queues
 * (uart_sim.c, init_uart_buffer, buffer_write, buffer_read and the three
 * queries). As in the C code every operation takes a possibly-null buffer.
 */
module CircularBuffer {
  import opened UartConfig

  /**
   * The buffer struct: 256 byte slots, the write cursor `head`, the read
   * cursor `tail`, the element `count` and the `capacity`. The ghost field
   * `contents` is the queue these fields represent, oldest byte first.
   */
  class UartBuffer {
    const data: array<uint8>
    var head: nat
    var tail: nat
    var count: nat
    var capacity: nat
    ghost var contents: seq<uint8>

    /**
     * The buffer invariant: the cursors lie inside the capacity, `head` is
     * `count` slots past `tail`, and `contents` is the window of `count`
     * slots that starts at `tail` and wraps around.
     */
    ghost predicate Valid()
      reads this, data
    {
      data.Length == MAX_BUFFER_SIZE &&
      0 < capacity <= data.Length &&
      head < capacity && tail < capacity && count <= capacity &&
      head == Wrap(tail + count, capacity) &&
      |contents| == count &&
      forall i {:trigger Slot(tail, i, capacity)} :: 0 <= i < count ==> contents[i] == data[Slot(tail, i, capacity)]
    }

    /** The state `init_uart_buffer` leaves behind: empty, cursors at 0, all slots 0. */
    ghost predicate IsReset()
      reads this, data
    {
      head == 0 && tail == 0 && count == 0 && capacity == MAX_BUFFER_SIZE &&
      contents == [] &&
      forall i :: 0 <= i < data.Length ==> data[i] == 0
    }

    /** A buffer variable that is declared and then initialised, as `main` does. */
    constructor ()
      ensures fresh(data)
      ensures Valid() && IsReset()
    {
      data := new uint8[MAX_BUFFER_SIZE];
      new;
      Init(this);
    }

    /** A copy of a whole buffer struct, storage included (`temp = *rx_buffer`). */
    constructor Copy(src: UartBuffer)
      requires src.Valid()
      ensures fresh(data)
      ensures data[..] == src.data[..]
      ensures head == src.head && tail == src.tail && count == src.count
      ensures capacity == src.capacity && contents == src.contents
      ensures Valid()
    {
      data := new uint8[MAX_BUFFER_SIZE](i reads src.data requires 0 <= i < src.data.Length => src.data[i]);
      head, tail, count, capacity := src.head, src.tail, src.count, src.capacity;
      contents := src.contents;
    }
  }

  /** The objects an operation on `b` may change: the struct and its storage. */
  function Footprint(b: UartBuffer?): (objs: set<object>)
  {
    if b == null then {} else {b, b.data}
  }

  /** A slot position that has run at most once past the end, wrapped back. */
  function Wrap(p: nat, c: nat): (slot: nat)
  {
    if p < c then p else p - c
  }

  /** The slot that holds element i of a queue starting at slot `start`. */
  function Slot(start: nat, i: nat, c: nat): (slot: nat)
  {
    Wrap(start + i, c)
  }

  /** For a position below twice the capacity, wrapping is the remainder modulo the capacity. */
  lemma ModBelowTwice(a: nat, c: nat)
    requires 0 < c && a < 2 * c
    ensures a % c == Wrap(a, c)
  {
  }

  /** `init_uart_buffer`: zero the storage, reset the cursors and the count, set the capacity. */
  method Init(b: UartBuffer?)
    requires b != null ==> b.data.Length == MAX_BUFFER_SIZE
    modifies Footprint(b)
    ensures b != null ==> b.Valid() && b.IsReset()
  {
    if b == null {
      return;
    }
    var i := 0;
    while i < b.data.Length
      invariant 0 <= i <= b.data.Length
      invariant forall j :: 0 <= j < i ==> b.data[j] == 0
    {
      b.data[i] := 0;
      i := i + 1;
    }
    b.head := 0;
    b.tail := 0;
    b.count := 0;
    b.capacity := MAX_BUFFER_SIZE;
    b.contents := [];
  }

  /** `buffer_is_empty`: decided by the count alone; a null buffer is empty. */
  function IsEmpty(b: UartBuffer?): (r: bool)
    reads Footprint(b)
    ensures b == null ==> r
    ensures b != null && b.Valid() ==> (r <==> b.contents == [])
  {
    if b == null then true else b.count == 0
  }

  /** `buffer_is_full`: decided by the count alone; a null buffer is full. */
  function IsFull(b: UartBuffer?): (r: bool)
    reads Footprint(b)
    ensures b == null ==> r
    ensures b != null && b.Valid() ==> (r <==> |b.contents| == b.capacity)
  {
    if b == null then true else b.count >= b.capacity
  }

  /** `buffer_count`: the number of stored bytes; zero for a null buffer. */
  function Count(b: UartBuffer?): (r: nat)
    reads Footprint(b)
    ensures b == null ==> r == 0
    ensures b != null && b.Valid() ==> r == |b.contents| && r <= b.capacity
  {
    if b == null then 0 else b.count
  }

  /**
   * Equal cursors do not tell empty from full: `head == tail` holds exactly
   * when the buffer is empty or full, which is why the count decides.
   */
  lemma CursorsMeetWhenEmptyOrFull(b: UartBuffer)
    requires b.Valid()
    ensures b.head == b.tail <==> IsEmpty(b) || IsFull(b)
  {
  }

  /**
   * The invariant in the form the C code keeps it: the write cursor is the
   * read cursor plus the count, modulo the capacity, and stored byte i sits
   * in slot `(tail + i) % capacity`.
   */
  lemma CursorsModuloCapacity(b: UartBuffer)
    requires b.Valid()
    ensures b.head == (b.tail + b.count) % b.capacity
    ensures forall i :: 0 <= i < b.count ==> b.contents[i] == b.data[(b.tail + i) % b.capacity]
  {
    ModBelowTwice(b.tail + b.count, b.capacity);
    forall i | 0 <= i < b.count
      ensures b.contents[i] == b.data[(b.tail + i) % b.capacity]
    {
      ModBelowTwice(b.tail + i, b.capacity);
      assert b.contents[i] == b.data[Slot(b.tail, i, b.capacity)];
    }
  }

  /**
   * `buffer_write`: a null or full buffer refuses the byte and is left as it
   * was (no overwriting); otherwise the byte is stored at `head`, `head`
   * advances modulo the capacity and the byte joins the back of the queue.
   */
  method Write(b: UartBuffer?, x: uint8) returns (ok: bool)
    requires b != null ==> b.Valid()
    modifies Footprint(b)
    ensures b == null ==> !ok
    ensures b != null ==> b.Valid()
    ensures b != null ==> ok == (old(b.count) < old(b.capacity))
    ensures b != null ==> b.contents == if ok then old(b.contents) + [x] else old(b.contents)
    ensures b != null && !ok ==> unchanged(b.data)
    ensures b != null && ok ==> b.data[old(b.head)] == x
    ensures b != null && ok ==> forall i :: 0 <= i < b.data.Length && i != old(b.head) ==> b.data[i] == old(b.data[i])
    ensures b != null ==> b.head == if ok then Wrap(old(b.head) + 1, b.capacity) else old(b.head)
    ensures b != null ==> b.count == if ok then old(b.count) + 1 else old(b.count)
    ensures b != null ==> b.tail == old(b.tail) && b.capacity == old(b.capacity)
  {
    if b == null || IsFull(b) {
      return false;
    }
    b.data[b.head] := x;
    ModBelowTwice(b.head + 1, b.capacity);
    b.head := (b.head + 1) % b.capacity;
    b.count := b.count + 1;
    b.contents := b.contents + [x];
    return true;
  }

  /**
   * `buffer_read`: a null or empty buffer yields nothing and is left as it
   * was; otherwise the byte at `tail`, the front of the queue, is returned
   * and removed, and `tail` advances modulo the capacity. The storage is
   * never changed. The C out-pointer is the second result.
   */
  method Read(b: UartBuffer?) returns (ok: bool, x: uint8)
    requires b != null ==> b.Valid()
    modifies b
    ensures b == null ==> !ok
    ensures b != null ==> b.Valid()
    ensures b != null ==> ok == (old(b.count) > 0)
    ensures b != null && ok ==> x == old(b.contents)[0] && x == old(b.data[b.tail])
    ensures b != null ==> b.contents == if ok then old(b.contents)[1..] else old(b.contents)
    ensures b != null ==> b.tail == if ok then Wrap(old(b.tail) + 1, b.capacity) else old(b.tail)
    ensures b != null ==> b.count == if ok then old(b.count) - 1 else old(b.count)
    ensures b != null ==> b.head == old(b.head) && b.capacity == old(b.capacity)
  {
    if b == null || IsEmpty(b) {
      return false, 0;
    }
    assert b.contents[0] == b.data[Slot(b.tail, 0, b.capacity)];
    x := b.data[b.tail];
    ModBelowTwice(b.tail + 1, b.capacity);
    b.tail := (b.tail + 1) % b.capacity;
    b.count := b.count - 1;
    b.contents := b.contents[1..];
    forall i | 0 <= i < b.count
      ensures b.contents[i] == b.data[Slot(b.tail, i, b.capacity)]
    {
      assert b.contents[i] == old(b.contents[i + 1]);
      assert old(b.contents[i + 1] == b.data[Slot(b.tail, i + 1, b.capacity)]);
    }
    ok := true;
  }
}
