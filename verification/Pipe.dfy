/** One direction of the bridge of src/aws/proxy/proxy_bridge.cc: what is read from the source
    socket goes through a buffer and is written to the sink socket.

    The eight flags of the bridge are four for each direction, and no handler lets one direction
    depend on the other; so a bridge is two of these. For the direction from the client, `reading`,
    `readable`, `writing` and `writable` are reading_client_, client_readable_, writing_dest_ and
    dest_writable_, and the other way round.
 */
module Pipes {
  import opened Blocks
  import opened Buffers
  import opened Common
  import opened Freelists
  import opened Layouts

  const MAX_BUFFER_SIZE := 1048576
  const READ_SIZE := 65536

  /** A direction as its sockets see it: what is buffered, the flags, which ends were shut down, and how much
      a read of the handshake, a read and a write under way can bring or take.
   */
  datatype Flow = Flow(data: seq<Byte>, readable: bool, writable: bool, sendShut: bool, receiveShut: bool,
                       greeting: Option<nat>, reading: Option<nat>, writing: Option<nat>)

  const IDLE := Flow([], true, true, false, false, None, None, None)

  function When(on: bool, n: nat): (room: Option<nat>) {
    if on then Some(n) else None
  }

  predicate Fits(n: nat, room: Option<nat>) {
    room.Some? && n <= room.value
  }

  /** A read has brought `bytes`. At its end the source is not read any more, and the sink is shut down for
      sending if nothing is left to send.
   */
  function AfterRead(f: Flow, bytes: seq<Byte>, failed: bool): (g: Flow) {
    var data := f.data + bytes;
    f.(data := data, greeting := None, reading := None, readable := f.readable && !failed,
       sendShut := f.sendShut || (failed && data == []))
  }

  /** A write has taken `size` bytes. If it failed the sink is not written any more, and the source is shut
      down for receiving; if nothing can follow the sink is shut down for sending.
   */
  function AfterWrite(f: Flow, size: nat, failed: bool): (g: Flow)
    requires size <= |f.data|
  {
    var data := f.data[size..];
    var over := !f.readable && data == [];
    f.(data := data, writing := None, writable := f.writable && !failed && !over,
       sendShut := f.sendShut || over, receiveShut := f.receiveShut || failed)
  }

  /** Whatever can be started has been started, and nothing else has changed. */
  ghost predicate Started(f: Flow, g: Flow) {
    && g == f.(reading := g.reading, writing := g.writing)
    && (if f.reading.Some? then g.reading == f.reading
        else if f.readable && f.writable && |f.data| < MAX_BUFFER_SIZE then Fits(READ_SIZE, g.reading)
        else g.reading.None?)
    && (if f.writing.Some? then g.writing == f.writing
        else if f.writable && f.data != [] then g.writing == Some(|f.data|)
        else g.writing.None?)
  }

  function Slice(i: Image): (data: seq<Byte>) {
    if i.from <= i.to <= |i.line| then i.line[i.from..i.to] else []
  }

  class Pipe {
    const buffer: Buffer
    var reading: bool
    var writing: bool
    var readable: bool
    var writable: bool
    var moved: nat         // upstream_size_ or downstream_size_
    var greeting: bool     // a read of the handshake is outstanding
    var sendShut: bool     // the sink has been shut down for sending
    var receiveShut: bool  // the source has been shut down for receiving
    // The memory that the outstanding read and the outstanding write were given.
    var readSpans: seq<Span>
    var writeSpans: seq<Span>
    ghost var readPieces: seq<Piece>
    ghost var writePieces: seq<Piece>
    // All bytes read from the source, those the handshake took, and those written to the sink.
    ghost var received: seq<Byte>
    ghost var taken: seq<Byte>
    ghost var delivered: seq<Byte>

    /** A read is outstanding exactly while the buffer is reserved, and it still has the memory where
        the next bytes belong.
     */
    ghost predicate Reads()
      reads this`reading, this`greeting, this`readable, this`readSpans, this`readPieces
      reads buffer`reserved, buffer`grantLen, buffer`image, buffer`serials
    {
      && buffer.reserved == (reading || greeting) && !(reading && greeting)
      && (buffer.reserved ==>
            && readable && buffer.grantLen > 0
            && buffer.Covers(readSpans, readPieces, buffer.image.to, buffer.image.to + buffer.grantLen))
    }

    /** A write is outstanding exactly while the buffer is peeked, and it still has the memory where
        the next bytes are.
     */
    ghost predicate Writes()
      reads this`writing, this`writeSpans, this`writePieces
      reads buffer`peeked, buffer`viewLen, buffer`image, buffer`serials
    {
      && buffer.peeked == writing
      && (buffer.peeked ==>
            && buffer.viewLen > 0
            && buffer.Covers(writeSpans, writePieces, buffer.image.from, buffer.image.from + buffer.viewLen))
    }

    /** No byte is lost, duplicated or out of order. */
    ghost predicate Faithful()
      requires buffer.Valid()
      reads this`received, this`taken, this`delivered, this`moved, buffer, buffer.repr
    {
      received == taken + delivered + buffer.Contents() && moved == |delivered|
    }

    /** The buffer is bounded, counting what an outstanding read may add. */
    ghost predicate Bounded()
      reads buffer`dataSize, buffer`reserved, buffer`grantLen
    {
      buffer.dataSize + (if buffer.reserved then buffer.grantLen else 0)
      <= MAX_BUFFER_SIZE + READ_SIZE + buffer.capacity - 2
    }

    ghost predicate Valid()
      reads this, buffer, buffer.repr
    {
      && buffer.Valid() && Reads() && Writes() && Faithful() && Bounded()
      // The sink is shut down only when nothing can follow.
      && (sendShut ==> !readable && !buffer.reserved && buffer.dataSize == 0)
    }

    ghost function Now(): (f: Flow)
      reads this`readable, this`writable, this`sendShut, this`receiveShut, this`greeting, this`reading, this`writing
      reads buffer`image, buffer`grantLen, buffer`viewLen
    {
      Flow(Slice(buffer.image), readable, writable, sendShut, receiveShut, When(greeting, buffer.grantLen),
           When(reading, buffer.grantLen), When(writing, buffer.viewLen))
    }

    constructor (freelist: Freelist)
      requires freelist.capacity > 0
      ensures Valid() && fresh(buffer) && buffer.freelist == freelist && buffer.repr == {}
      ensures received == taken == delivered == [] && readable && writable && !reading && !writing && !greeting
      ensures !sendShut && Now() == IDLE
    {
      buffer := new Buffer(freelist);
      reading, writing, readable, writable, moved, greeting := false, false, true, true, 0, false;
      sendShut, receiveShut, readSpans, writeSpans := false, false, [], [];
      readPieces, writePieces, received, taken, delivered := [], [], [], [], [];
    }

    /** How much an outstanding read can bring. */
    function ReadRoom(): (n: nat)
      requires Valid() && buffer.reserved
      reads this, buffer, buffer.repr
      ensures n == buffer.grantLen
    {
      buffer.CoversTotal(readSpans, readPieces, buffer.image.to, buffer.image.to + buffer.grantLen);
      Total(readSpans)
    }

    /** How much an outstanding write can take. */
    function WriteRoom(): (n: nat)
      requires Valid() && buffer.peeked
      reads this, buffer, buffer.repr
      ensures n == buffer.viewLen
    {
      buffer.CoversTotal(writeSpans, writePieces, buffer.image.from, buffer.image.from + buffer.viewLen);
      Total(writeSpans)
    }

    /** Asks the source for at least `size` bytes, for the handshake or not. */
    method StartRead(size: nat, greet: bool)
      requires Valid() && buffer.freelist.Valid() && !buffer.reserved && readable && size > 0
      requires buffer.dataSize + size <= MAX_BUFFER_SIZE + READ_SIZE - 1
      modifies this`readSpans, this`readPieces, this`reading, this`greeting
      modifies buffer, buffer.repr, buffer.freelist, buffer.freelist.pool
      ensures Valid() && buffer.freelist.Valid() && reading == !greet && greeting == greet && size <= buffer.grantLen
      ensures Now() == old(Now()).(greeting := When(greet, buffer.grantLen), reading := When(!greet, buffer.grantLen))
      ensures buffer.dataSize == old(buffer.dataSize) && buffer.peeked == old(buffer.peeked)
      ensures forall b :: b in buffer.repr || b in buffer.freelist.pool ==>
                b in old(buffer.repr) || b in old(buffer.freelist.pool) || fresh(b)
    {
      var spans, pieces := AskSpace(size);
      SetRead(spans, pieces, greet);
    }

    /** Reserves at least `size` bytes; an outstanding write keeps its memory. */
    method AskSpace(size: nat) returns (spans: seq<Span>, ghost pieces: seq<Piece>)
      requires buffer.Valid() && buffer.freelist.Valid() && Writes() && !buffer.reserved && size > 0
      modifies buffer, buffer.repr, buffer.freelist, buffer.freelist.pool
      ensures buffer.Valid() && buffer.freelist.Valid() && Writes() && buffer.reserved
      ensures size <= buffer.grantLen < size + buffer.capacity
      ensures buffer.Covers(spans, pieces, buffer.image.to, buffer.image.to + buffer.grantLen)
      ensures buffer.Contents() == old(buffer.Contents()) && buffer.dataSize == old(buffer.dataSize)
      ensures buffer.peeked == old(buffer.peeked) && buffer.viewLen == old(buffer.viewLen)
      ensures forall b :: b in buffer.repr || b in buffer.freelist.pool ==>
                b in old(buffer.repr) || b in old(buffer.freelist.pool) || fresh(b)
    {
      ghost var s := buffer.serials;
      var reserved;
      spans, reserved, pieces := buffer.ReserveAtLeast(size);
      Prefixed(old(buffer.image), buffer.image);
      if writing {
        buffer.StillCovers(writeSpans, writePieces, buffer.image.from, buffer.image.from + buffer.viewLen, s);
      }
    }

    method SetRead(spans: seq<Span>, ghost pieces: seq<Piece>, greet: bool)
      modifies this`readSpans, this`readPieces, this`reading, this`greeting
      ensures readSpans == spans && readPieces == pieces && reading == !greet && greeting == greet
    {
      readSpans, readPieces, reading, greeting := spans, pieces, !greet, greet;
    }

    /** Offers all data to the sink. */
    method StartWrite()
      requires Valid() && !writing && buffer.dataSize > 0
      modifies this`writeSpans, this`writePieces, this`writing, buffer`peeked, buffer`viewLen
      ensures Valid() && writing && Now() == old(Now()).(writing := Some(|old(Now()).data|))
    {
      var spans, pieces := buffer.Peek();
      writeSpans, writePieces, writing := spans, pieces, true;
    }

    /** Everything that can be under way is under way. */
    predicate Busy()
      reads this`reading, this`writing, this`readable, this`writable, buffer`dataSize
    {
      && (readable && writable && buffer.dataSize < MAX_BUFFER_SIZE ==> reading)
      && (writable && buffer.dataSize > 0 ==> writing)
    }

    /** The sink is shut down for sending exactly when nothing can follow. */
    predicate Closing()
      reads this`sendShut, this`readable, buffer`dataSize
    {
      sendShut <==> !readable && buffer.dataSize == 0
    }

    /** A busy direction with nothing outstanding has come to its end: the sink takes no more, or the
        source has ended and everything has been delivered.
     */
    lemma Ended()
      requires Valid() && Busy() && !reading && !writing && writable
      ensures !readable && received == taken + delivered
    {
    }

    /** The part of ForwardTraffic for this direction. */
    method Forward()
      requires Valid() && buffer.freelist.Valid() && !greeting
      modifies this`readSpans, this`readPieces, this`reading, this`greeting
      modifies this`writeSpans, this`writePieces, this`writing
      modifies buffer, buffer.repr, buffer.freelist, buffer.freelist.pool
      ensures Valid() && buffer.freelist.Valid() && !greeting && Busy()
      ensures buffer.dataSize == old(buffer.dataSize)
      ensures Started(old(Now()), Now())
      ensures reading == (old(reading) || (readable && writable && buffer.dataSize < MAX_BUFFER_SIZE))
      ensures writing == (old(writing) || (writable && buffer.dataSize > 0))
      ensures forall b :: b in buffer.repr || b in buffer.freelist.pool ==>
                b in old(buffer.repr) || b in old(buffer.freelist.pool) || fresh(b)
    {
      if !reading && readable && writable && buffer.dataSize < MAX_BUFFER_SIZE {
        StartRead(READ_SIZE, false);
      }
      if !writing && writable && buffer.dataSize > 0 {
        StartWrite();
      }
    }

    /** The source fills the memory of the outstanding read with `bytes` and ends the operation. */
    method FinishRead(bytes: seq<Byte>)
      requires Valid() && buffer.reserved && |bytes| <= buffer.grantLen
      modifies this`reading, this`greeting, this`received
      modifies buffer`layout, buffer`image, buffer`end, buffer`dataSize, buffer`reserved
      modifies buffer.repr`buf, buffer.repr`len
      ensures Valid() && !reading && !greeting
      ensures received == old(received) + bytes && buffer.Contents() == old(buffer.Contents()) + bytes
      ensures buffer.dataSize == old(buffer.dataSize) + |bytes|
      ensures Now() == old(Now()).(data := old(Now()).data + bytes, greeting := None, reading := None)
    {
      Append(taken, delivered, buffer.Contents(), bytes);
      buffer.Fill(readSpans, bytes, readPieces);
      SetReceived(bytes);
    }

    method SetReceived(bytes: seq<Byte>)
      modifies this`reading, this`greeting, this`received
      ensures !reading && !greeting && received == old(received) + bytes
    {
      reading, greeting, received := false, false, received + bytes;
    }

    /** ClientReadHandler and DestReadHandler, up to their call of ForwardTraffic. */
    method ReadHandler(bytes: seq<Byte>, failed: bool)
      requires Valid() && reading && |bytes| <= buffer.grantLen
      modifies this`reading, this`greeting, this`received, this`readable, this`sendShut
      modifies buffer`layout, buffer`image, buffer`end, buffer`dataSize, buffer`reserved
      modifies buffer.repr`buf, buffer.repr`len
      ensures Valid() && !reading && !greeting
      ensures received == old(received) + bytes && readable == !failed
      ensures Closing() && !old(sendShut) && Now() == AfterRead(old(Now()), bytes, failed)
    {
      FinishRead(bytes);
      if failed {
        readable := false;
        if buffer.dataSize == 0 {
          sendShut := true;
        }
      }
    }

    /** The sink takes `size` bytes out of the memory of the outstanding write. */
    method FinishWrite(size: nat)
      requires Valid() && buffer.freelist.Valid() && writing && size <= buffer.viewLen
      modifies this`writing, this`delivered, this`moved, buffer, buffer.repr, buffer.freelist
      ensures Valid() && buffer.freelist.Valid() && !writing && buffer.reserved == old(buffer.reserved)
      ensures size <= |old(Now()).data| && delivered == old(delivered) + old(Now()).data[..size]
      ensures buffer.dataSize == old(buffer.dataSize) - size
      ensures Now() == old(Now()).(data := old(Now()).data[size..], writing := None)
      ensures forall b :: b in buffer.repr || b in buffer.freelist.pool ==>
                b in old(buffer.repr) || b in old(buffer.freelist.pool) || fresh(b)
    {
      Handover(taken, delivered, buffer.Contents(), size);
      var out := TakeOut(size);
      SetWritten(out);
    }

    /** Reads `size` bytes through the view and drains them; an outstanding read keeps its memory. */
    method TakeOut(size: nat) returns (out: seq<Byte>)
      requires buffer.Valid() && buffer.freelist.Valid() && Reads() && Writes() && writing && size <= buffer.viewLen
      modifies buffer, buffer.repr, buffer.freelist
      ensures buffer.Valid() && buffer.freelist.Valid() && Reads() && !buffer.peeked
      ensures buffer.reserved == old(buffer.reserved) && buffer.grantLen == old(buffer.grantLen)
      ensures |out| == size && out == old(buffer.Contents())[..size]
      ensures buffer.Contents() == old(buffer.Contents())[size..] && buffer.dataSize == old(buffer.dataSize) - size
      ensures forall b :: b in buffer.repr || b in buffer.freelist.pool ==>
                b in old(buffer.repr) || b in old(buffer.freelist.pool) || fresh(b)
    {
      ghost var s, i := buffer.serials, buffer.image;
      out := buffer.Empty(writeSpans, size, writePieces);
      if buffer.reserved {
        buffer.CoversKept(readSpans, readPieces, i.to, i.to + buffer.grantLen, s);
      }
    }

    method SetWritten(out: seq<Byte>)
      modifies this`writing, this`delivered, this`moved
      ensures !writing && delivered == old(delivered) + out && moved == old(moved) + |out|
    {
      writing, delivered, moved := false, delivered + out, moved + |out|;
    }

    /** ClientWriteHandler and DestWriteHandler, up to their call of ForwardTraffic. */
    method WriteHandler(size: nat, failed: bool)
      requires Valid() && buffer.freelist.Valid() && writing && size <= buffer.viewLen
      modifies this`writing, this`delivered, this`moved, this`writable, this`sendShut, this`receiveShut
      modifies buffer, buffer.repr, buffer.freelist
      ensures Valid() && buffer.freelist.Valid() && !writing && buffer.reserved == old(buffer.reserved)
      ensures size <= |old(Now()).data| && delivered == old(delivered) + old(Now()).data[..size]
      ensures Closing() && !old(sendShut) && Now() == AfterWrite(old(Now()), size, failed)
      ensures receiveShut == (old(receiveShut) || failed)
      ensures writable == (old(writable) && !failed && !(!readable && buffer.dataSize == 0))
      ensures forall b :: b in buffer.repr || b in buffer.freelist.pool ==>
                b in old(buffer.repr) || b in old(buffer.freelist.pool) || fresh(b)
    {
      FinishWrite(size);
      if failed {
        writable, receiveShut := false, true;
      }
      if !readable && buffer.dataSize == 0 {
        writable, sendShut := false, true;
      }
    }
  }

  lemma Append(taken: seq<Byte>, delivered: seq<Byte>, data: seq<Byte>, bytes: seq<Byte>)
    ensures taken + delivered + data + bytes == taken + delivered + (data + bytes)
  {
  }

  lemma Handover(taken: seq<Byte>, delivered: seq<Byte>, data: seq<Byte>, n: nat)
    requires n <= |data|
    ensures taken + delivered + data == taken + (delivered + data[..n]) + data[n..]
  {
  }
}
