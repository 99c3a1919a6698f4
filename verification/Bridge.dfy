/** The bridge of src/aws/proxy/proxy_bridge.cc: a SOCKS5 handshake with the client and then traffic
    both ways. Each method is the handler of an event; the events come in any order and with any
    number of bytes, except that an operation ends only after it was started. Both buffers draw on
    one freelist, which other bridges may use as well.
 */
module Bridges {
  import opened Blocks
  import opened Buffers
  import opened Common
  import opened Driver
  import opened Freelists
  import opened Pipes
  import opened Socks5States
  import S = Socks5

  /** What the sockets can do to a bridge. */
  datatype Event =
    | Greeted(bytes: seq<Byte>, failed: bool)
    | Connected(failed: bool)
    | ClientRead(bytes: seq<Byte>, failed: bool)
    | DestWrite(size: nat, failed: bool)
    | DestRead(bytes: seq<Byte>, failed: bool)
    | ClientWrite(size: nat, failed: bool)

  class ProxyBridge {
    const list: Freelist
    const up: Pipe    // from the client to the destination
    const down: Pipe  // from the destination to the client
    const socks: Socks5State
    ghost const step: S.Stepper
    ghost var forwarding: bool  // ForwardTraffic has been called
    ghost var aborted: bool     // a read of the handshake has failed

    ghost predicate Waiting()
      reads socks`state
    {
      socks.state == S.WaitConnect || socks.state == S.WaitAccept
    }

    /** The handshake has taken exactly what the handshake takes of the client's whole byte stream,
        and stands where that leaves it until the destination is connected.
     */
    ghost predicate Following(h: S.Handshake, received: seq<Byte>, taken: nat)
      requires S.Sound(step)
      reads this`forwarding
    {
      forall key {:trigger Open(socks, key)} :: Open(socks, key) ==>
        var (d, n) := Drive(step, S.Init, received);
        n == taken && if forwarding then Over(d) else S.Same(h, d)
    }

    /** The direction from the client, where the handshake comes first. */
    ghost predicate UpwardInside()
      reads this, socks, up, up.buffer, up.buffer.repr
    {
      && up.Valid() && socks.Valid() && S.Machine(step, socks.cb) && socks.required <= 255
      && (!forwarding ==> !up.reading && !up.writing && up.readable && up.writable && up.delivered == [])
      && (forwarding ==> !up.greeting && !Waiting())
      && (up.greeting ==> !Waiting()) && (aborted ==> !forwarding && !Waiting() && !up.greeting)
      && (aborted || Following(socks.View(), up.received, |up.taken|))
    }

    ghost predicate Upward()
      reads this, socks, up, up.buffer, up.buffer.repr
    {
      forall key {:trigger Open(this, key)} :: Open(this, key) ==> UpwardInside()
    }

    ghost predicate Downward()
      reads this`forwarding, down, down.buffer, down.buffer.repr
    {
      forall key {:trigger OpenInner(this, key)} :: OpenInner(this, key) ==>
        && down.Valid() && !down.greeting && down.taken == []
        && (!forwarding ==> !down.reading && !down.writing && down.readable && down.writable)
    }

    ghost predicate Valid()
      reads this, list, list.pool, socks, up, down, up.buffer, down.buffer, up.buffer.repr, down.buffer.repr
    {
      && up != down && up.buffer != down.buffer && up.buffer.freelist == down.buffer.freelist == list
      && list.Valid() && Upward() && Downward()
    }

    /** All blocks of the two buffers and of the freelist. */
    ghost function Owned(): (bs: set<Block>)
      reads up.buffer`repr, down.buffer`repr, list`pool
    {
      up.buffer.repr + down.buffer.repr + list.pool
    }

    lemma Disjoint()
      requires Valid()
      ensures up.buffer.repr !! down.buffer.repr && up.buffer.repr !! list.pool && down.buffer.repr !! list.pool
    {
      assert Open(this, 0) && OpenInner(this, 0);
      up.buffer.Homes();
      down.buffer.Homes();
      list.Homes();
    }

    constructor (list: Freelist, cb: S.Callbacks)
      requires list.Valid() && list.capacity > 0 && cb.hasReply
      ensures Valid() && this.list == list && fresh(up) && fresh(down) && fresh(up.buffer) && fresh(down.buffer)
      ensures fresh(socks) && socks.cb == cb && S.Machine(step, cb)
      ensures Now() == Moment(Streams([], [], false, [], [], false), S.Init, false, false, IDLE, IDLE)
      ensures up.buffer.repr == down.buffer.repr == {} && !up.buffer.reserved
    {
      this.list := list;
      up := new Pipe(list);
      down := new Pipe(list);
      socks := new Socks5State(cb);
      step := S.Stepping(cb);
      forwarding, aborted := false, false;
      new;
      Begins();
    }

    lemma Begins()
      requires up.Valid() && socks.Valid() && socks.View() == S.Init && S.Machine(step, socks.cb)
      requires up.received == up.taken == up.delivered == [] && up.readable && up.writable
      requires !up.reading && !up.writing && !up.greeting && !forwarding && !aborted
      ensures Upward()
    {
    }

    // ---------------------------------------------------------------- the handshake

    /** What the handshake needs of the direction it reads from. */
    ghost predicate Greetable()
      reads this, socks, up, up.buffer, up.buffer.repr
    {
      && up.Valid() && !up.writing && !up.buffer.reserved && up.delivered == [] && up.readable && up.writable
      && socks.Valid() && S.Machine(step, socks.cb) && socks.required <= 255
    }

    /** One turn of the loop of Socks5HandshakeHandler. */
    method TakeStep() returns (go: bool)
      requires Greetable() && up.buffer.freelist.Valid()
      modifies socks, up`taken, up.buffer, up.buffer.repr, up.buffer.freelist
      ensures Greetable() && up.buffer.freelist.Valid() && up.buffer.repr <= old(up.buffer.repr)
      ensures up.buffer.freelist.pool <= old(up.buffer.freelist.pool + up.buffer.repr)
      ensures var data := old(up.buffer.Contents()); var s := step(old(socks.View()), data);
        && go == s.go && socks.View() == s.next && s.used <= |data| && up.buffer.Contents() == data[s.used..]
        && |up.taken| == |old(up.taken)| + s.used
    {
      ghost var h, data := socks.View(), up.buffer.Contents();
      assert S.Agrees(step, socks.cb, h, data);
      RequiredSmall(socks.cb, h, data);
      go := socks.Proceed(up.buffer);
      Take(data);
    }

    ghost method Take(data: seq<Byte>)
      requires up.buffer.Valid() && !up.buffer.peeked && !up.buffer.reserved && |up.buffer.Contents()| <= |data|
      requires up.buffer.Contents() == data[|data| - |up.buffer.Contents()|..]
      requires up.received == up.taken + up.delivered + data && up.delivered == [] && up.moved == 0
      requires !up.reading && !up.greeting && !up.writing && !up.sendShut
      requires |data| <= MAX_BUFFER_SIZE + READ_SIZE + up.buffer.capacity - 2
      modifies up`taken
      ensures up.Valid() && |up.taken| == |old(up.taken)| + |data| - |up.buffer.Contents()|
    {
      var n := |data| - |up.buffer.Contents()|;
      Handover(up.taken, [], data, n);
      up.taken := up.taken + data[..n];
    }

    /** The loop of Socks5HandshakeHandler over the buffered data. */
    method DriveHandshake()
      requires Greetable() && up.buffer.freelist.Valid()
      modifies socks, up`taken, up.buffer, up.buffer.repr, up.buffer.freelist
      ensures Greetable() && up.buffer.freelist.Valid() && up.buffer.repr <= old(up.buffer.repr)
      ensures up.buffer.freelist.pool <= old(up.buffer.freelist.pool + up.buffer.repr)
      ensures var (end, m) := Drive(step, old(socks.View()), old(up.buffer.Contents()));
        && socks.View() == end && |up.taken| == |old(up.taken)| + m
        && up.buffer.Contents() == old(up.buffer.Contents())[m..]
    {
      ghost var (end, m) := Drive(step, socks.View(), up.buffer.Contents());
      var go := true;
      while go && socks.state != S.Success
        invariant Greetable() && up.buffer.freelist.Valid() && up.buffer.repr <= old(up.buffer.repr)
        invariant up.buffer.freelist.pool <= old(up.buffer.freelist.pool + up.buffer.repr)
        invariant |old(up.taken)| <= |up.taken| <= |old(up.taken)| + |old(up.buffer.Contents())|
        invariant up.buffer.Contents() == old(up.buffer.Contents())[|up.taken| - |old(up.taken)|..]
        invariant var n := |up.taken| - |old(up.taken)|;
          if go then Drive(step, socks.View(), up.buffer.Contents()) == (end, m - n) else socks.View() == end && n == m
        decreases go, S.Rank(socks.state)
      {
        go := TakeStep();
      }
    }

    /** Starts the handshake by reading from the client. */
    method PerformSocks5Handshake()
      requires Valid() && !forwarding && !aborted && !up.buffer.reserved && !Waiting() && up.received == []
      modifies up`readSpans, up`readPieces, up`reading, up`greeting, up.buffer, up.buffer.repr
      modifies list, list.pool
      ensures Valid() && up.greeting && 1 <= up.buffer.grantLen
      ensures up.Now() == old(up.Now()).(greeting := Some(up.buffer.grantLen), reading := None)
      ensures forall b :: b in Owned() ==> b in old(Owned()) || fresh(b)
    {
      Disjoint();
      Nothing();
      Ask();
    }

    lemma Nothing()
      requires Upward() && up.received == []
      ensures up.buffer.dataSize == 0
    {
      assert Open(this, 0);
      assert |up.buffer.Contents()| <= |up.received|;
    }

    /** Asks the client for more of the handshake. */
    method Ask()
      requires Upward() && up.buffer.freelist == list && list.Valid()
      requires !forwarding && !aborted && !up.buffer.reserved && !Waiting() && up.buffer.dataSize < 255
      modifies up`readSpans, up`readPieces, up`reading, up`greeting, up.buffer, up.buffer.repr
      modifies list, list.pool
      ensures Upward() && list.Valid() && up.greeting && up.buffer.dataSize == old(up.buffer.dataSize)
      ensures 1 <= up.buffer.grantLen
      ensures up.Now() == old(up.Now()).(greeting := Some(up.buffer.grantLen), reading := None)
      ensures forall b :: b in up.buffer.repr || b in list.pool ==>
                b in old(up.buffer.repr) || b in old(list.pool) || fresh(b)
    {
      assert Open(this, 0);
      up.StartRead(1, true);
    }

    /** A read of the handshake has ended. */
    method Socks5HandshakeHandler(bytes: seq<Byte>, failed: bool)
      requires Valid() && up.greeting && |bytes| <= up.buffer.grantLen
      modifies this`aborted, socks, up, up.buffer, up.buffer.repr
      modifies list, list.pool
      ensures Valid() && !forwarding && aborted == failed
      ensures up.received == old(up.received) + bytes && up.delivered == old(up.delivered) && !up.sendShut
      ensures up.greeting <==> !failed && up.buffer.dataSize < socks.required
      ensures S.Sound(step) && S.Ready(old(socks.View()))
      ensures Greets(step, old(socks.View()), old(up.Now()), bytes, failed, socks.View(), up.Now())
      ensures forall b :: b in Owned() ==> b in old(Owned()) || fresh(b)
    {
      Disjoint();
      if failed {
        Abort(bytes);
      } else {
        Advance(bytes);
      }
    }

    /** Keeps what has arrived and gives up. */
    method Abort(bytes: seq<Byte>)
      requires Upward() && up.greeting && |bytes| <= up.buffer.grantLen
      modifies this`aborted, up`reading, up`greeting, up`received
      modifies up.buffer`layout, up.buffer`image, up.buffer`end, up.buffer`dataSize, up.buffer`reserved
      modifies up.buffer.repr`buf, up.buffer.repr`len
      ensures Upward() && up.received == old(up.received) + bytes && aborted && !up.greeting && !forwarding
      ensures up.delivered == [] == old(up.delivered) && !up.sendShut
      ensures S.Sound(step) && S.Ready(old(socks.View()))
      ensures up.Now() == old(up.Now()).(data := old(up.Now()).data + bytes, greeting := None, reading := None)
    {
      Standing();
      up.FinishRead(bytes);
      aborted := true;
    }

    /** Runs the handshake over what has arrived, and asks for more if it is short of data. */
    method Advance(bytes: seq<Byte>)
      requires Upward() && up.buffer.freelist == list && list.Valid() && up.greeting && |bytes| <= up.buffer.grantLen
      modifies socks, up, up.buffer, up.buffer.repr
      modifies list, list.pool
      ensures Upward() && list.Valid() && up.received == old(up.received) + bytes && !forwarding && !aborted
      ensures up.delivered == [] == old(up.delivered) && !up.sendShut
      ensures up.greeting <==> up.buffer.dataSize < socks.required
      ensures S.Sound(step) && S.Ready(old(socks.View()))
      ensures Greets(step, old(socks.View()), old(up.Now()), bytes, false, socks.View(), up.Now())
      ensures forall b :: b in up.buffer.repr || b in list.pool ==>
                b in old(up.buffer.repr) || b in old(list.pool) || fresh(b)
    {
      Greet(bytes);
      if InsufficientBuffer() {
        Ask();
      }
    }

    predicate InsufficientBuffer()
      requires up.buffer.Valid()
      reads socks, up, up.buffer, up.buffer.repr
    {
      socks.InsufficientBuffer(up.buffer)
    }

    /** Takes `bytes` into the handshake. */
    method Greet(bytes: seq<Byte>)
      requires Upward() && up.buffer.freelist == list && list.Valid() && up.greeting && |bytes| <= up.buffer.grantLen
      modifies socks, up, up.buffer, up.buffer.repr, list
      ensures Upward() && list.Valid() && up.buffer.Valid() && up.received == old(up.received) + bytes
      ensures !forwarding && !aborted && up.delivered == [] == old(up.delivered) && !up.sendShut
      ensures !up.greeting && !up.buffer.reserved && socks.required <= 255 && (Waiting() ==> socks.required == 0)
      ensures S.Sound(step) && S.Ready(old(socks.View())) && up.buffer.dataSize == |up.Now().data|
      ensures var (end, m) := Drive(step, old(socks.View()), old(up.Now()).data + bytes);
        && socks.View() == end
        && up.Now() == old(up.Now()).(data := (old(up.Now()).data + bytes)[m..], greeting := None, reading := None)
      ensures forall b :: b in up.buffer.repr || b in list.pool ==>
                b in old(up.buffer.repr) || b in old(list.pool) || fresh(b)
    {
      Standing();
      Absorb(bytes);
      Resumed(step, old(socks.View()), old(up.received), |old(up.taken)|, old(up.buffer.Contents()), bytes);
      Stands();
    }

    lemma Standing()
      requires Upward() && up.greeting
      ensures UpwardInside() && !forwarding && !aborted
      ensures up.buffer.Contents() == up.received[|up.taken|..]
      ensures var (d, n) := Drive(step, S.Init, up.received); S.Same(socks.View(), d) && n == |up.taken|
    {
      assert Open(this, 0) && Open(socks, 0);
    }

    lemma Stands()
      requires Greetable() && !forwarding && !aborted && !up.reading && !up.greeting
      requires var (d, n) := Drive(step, S.Init, up.received); S.Same(socks.View(), d) && n == |up.taken|
      ensures Upward() && (Waiting() ==> socks.required == 0)
    {
    }

    method Absorb(bytes: seq<Byte>)
      requires UpwardInside() && up.buffer.freelist.Valid() && up.greeting && |bytes| <= up.buffer.grantLen
      modifies socks, up, up.buffer, up.buffer.repr, up.buffer.freelist
      ensures Greetable() && up.buffer.freelist.Valid() && up.received == old(up.received) + bytes
      ensures !up.reading && !up.greeting && up.readable && up.writable && !up.sendShut
      ensures up.buffer.repr <= old(up.buffer.repr)
      ensures up.buffer.freelist.pool <= old(up.buffer.freelist.pool + up.buffer.repr)
      ensures var (end, m) := Drive(step, old(socks.View()), old(up.buffer.Contents()) + bytes);
        && socks.View() == end && |up.taken| == |old(up.taken)| + m
        && up.Now() == old(up.Now()).(data := (old(up.Now()).data + bytes)[m..], greeting := None, reading := None)
    {
      ghost var h, all := socks.View(), up.buffer.Contents() + bytes;
      Arrive(bytes);
      assert socks.View() == h && up.buffer.Contents() == all == up.Now().data;
      DriveHandshake();
      assert up.buffer.Contents() == up.Now().data;
    }

    method Arrive(bytes: seq<Byte>)
      requires UpwardInside() && up.buffer.freelist.Valid() && up.greeting && |bytes| <= up.buffer.grantLen
      modifies up`reading, up`greeting, up`received
      modifies up.buffer`layout, up.buffer`image, up.buffer`end, up.buffer`dataSize, up.buffer`reserved
      modifies up.buffer.repr`buf, up.buffer.repr`len
      ensures Greetable() && up.buffer.freelist.Valid() && up.received == old(up.received) + bytes
      ensures !up.reading && !up.greeting && !up.sendShut && up.buffer.Contents() == old(up.buffer.Contents()) + bytes
      ensures up.Now() == old(up.Now()).(data := old(up.Now()).data + bytes, greeting := None, reading := None)
    {
      up.buffer.Homes();
      up.buffer.freelist.Homes();
      up.FinishRead(bytes);
    }

    // ---------------------------------------------------------------- traffic

    /** Everything that can be under way in either direction is under way, and a side is shut down for
        sending exactly if the other side has ended and nothing is left to deliver.
     */
    ghost predicate Live()
      reads up, down, up.buffer, down.buffer
    {
      up.Busy() && down.Busy() && up.Closing() && down.Closing()
    }

    /** Starts whatever operations can be started. */
    method ForwardTraffic()
      requires Valid() && forwarding && up.Closing() && down.Closing()
      modifies up`readSpans, up`readPieces, up`reading, up`greeting, up`writeSpans, up`writePieces, up`writing
      modifies up.buffer, up.buffer.repr
      modifies down`readSpans, down`readPieces, down`reading, down`greeting
      modifies down`writeSpans, down`writePieces, down`writing
      modifies down.buffer, down.buffer.repr
      modifies list, list.pool
      ensures Valid() && Live() && Started(old(up.Now()), up.Now()) && Started(old(down.Now()), down.Now())
      ensures Traffic() == old(Traffic())
      ensures forall b :: b in Owned() ==> b in old(Owned()) || fresh(b)
    {
      StartUp();
      Inside();
      StartDown();
    }

    method StartUp()
      requires Valid() && forwarding && up.Closing()
      modifies up`readSpans, up`readPieces, up`reading, up`greeting, up`writeSpans, up`writePieces, up`writing
      modifies up.buffer, up.buffer.repr
      modifies list, list.pool
      ensures Valid() && up.Busy() && up.Closing() && Started(old(up.Now()), up.Now())
      ensures forall b :: b in Owned() ==> b in old(Owned()) || fresh(b)
    {
      Disjoint();
      ForwardUp();
    }

    method StartDown()
      requires Valid() && forwarding && down.Closing()
      modifies down`readSpans, down`readPieces, down`reading, down`greeting
      modifies down`writeSpans, down`writePieces, down`writing
      modifies down.buffer, down.buffer.repr
      modifies list, list.pool
      ensures Valid() && down.Busy() && down.Closing() && Started(old(down.Now()), down.Now())
      ensures forall b :: b in Owned() ==> b in old(Owned()) || fresh(b)
    {
      Disjoint();
      ForwardDown();
    }

    method ForwardUp()
      requires Upward() && up.buffer.freelist == list && list.Valid() && forwarding && up.Closing()
      modifies up`readSpans, up`readPieces, up`reading, up`greeting, up`writeSpans, up`writePieces, up`writing
      modifies up.buffer, up.buffer.repr
      modifies list, list.pool
      ensures Upward() && list.Valid() && up.Busy() && up.Closing() && Started(old(up.Now()), up.Now())
      ensures forall b :: b in up.buffer.repr || b in list.pool ==>
                b in old(up.buffer.repr) || b in old(list.pool) || fresh(b)
    {
      assert Open(this, 0);
      up.Forward();
    }

    method ForwardDown()
      requires Downward() && down.buffer.freelist == list && list.Valid() && forwarding && down.Closing()
      modifies down`readSpans, down`readPieces, down`reading, down`greeting
      modifies down`writeSpans, down`writePieces, down`writing
      modifies down.buffer, down.buffer.repr
      modifies list, list.pool
      ensures Downward() && list.Valid() && down.Busy() && down.Closing() && Started(old(down.Now()), down.Now())
      ensures forall b :: b in down.buffer.repr || b in list.pool ==>
                b in old(down.buffer.repr) || b in old(list.pool) || fresh(b)
    {
      assert OpenInner(this, 0);
      down.Forward();
    }

    /** The connection to the destination has been made, or an inbound one accepted, or not. */
    method ConnectHandler(failed: bool)
      requires Valid() && Waiting() && !forwarding
      modifies this`forwarding, socks
      modifies up`readSpans, up`readPieces, up`reading, up`greeting, up`writeSpans, up`writePieces, up`writing
      modifies up.buffer, up.buffer.repr
      modifies down`readSpans, down`readPieces, down`reading, down`greeting
      modifies down`writeSpans, down`writePieces, down`writing
      modifies down.buffer, down.buffer.repr
      modifies list, list.pool
      ensures Valid() && forwarding == !failed && (!failed ==> Live() && socks.state == S.Success)
      ensures S.Ready(old(socks.View())) && socks.cb.hasReply
      ensures if failed then
                && socks.View() == old(socks.View()) && up.Now() == old(up.Now()) && down.Now() == old(down.Now())
              else
                && socks.View() == S.ConnectionSucceed(socks.cb, old(socks.View())).0
                && Started(old(up.Now()), up.Now()) && Started(old(down.Now()), down.Now())
      ensures forall b :: b in Owned() ==> b in old(Owned()) || fresh(b)
    {
      if failed {
        Answering();
        return;
      }
      Link();
      ForwardTraffic();
    }

    lemma Answering()
      requires Valid()
      ensures S.Ready(socks.View()) && S.Machine(step, socks.cb)
    {
      assert Open(this, 0);
    }

    method Link()
      requires Valid() && Waiting() && !forwarding
      modifies this`forwarding, socks
      ensures Valid() && forwarding && socks.state == S.Success && up.Closing() && down.Closing()
      ensures S.Ready(old(socks.View())) && socks.cb.hasReply
      ensures socks.View() == S.ConnectionSucceed(socks.cb, old(socks.View())).0
    {
      assert Open(this, 0) && OpenInner(this, 0) && Open(socks, 0);
      var ok := socks.ConnectionSucceed();
      forwarding := true;
    }

    method ClientReadHandler(bytes: seq<Byte>, failed: bool)
      requires Valid() && forwarding && up.Closing() && down.Closing() && up.reading && |bytes| <= up.buffer.grantLen
      modifies up`received, up`readable, up`sendShut
      modifies up`readSpans, up`readPieces, up`reading, up`greeting, up`writeSpans, up`writePieces, up`writing
      modifies up.buffer, up.buffer.repr
      modifies down`readSpans, down`readPieces, down`reading, down`greeting
      modifies down`writeSpans, down`writePieces, down`writing
      modifies down.buffer, down.buffer.repr
      modifies list, list.pool
      ensures Valid() && Live() && up.readable == !failed
      ensures Traffic() == old(Traffic()).(fromClient := old(up.received) + bytes, destShut := up.sendShut)
      ensures Started(AfterRead(old(up.Now()), bytes, failed), up.Now()) && Started(old(down.Now()), down.Now())
      ensures old(up.sendShut) ==> up.sendShut
      ensures forall b :: b in Owned() ==> b in old(Owned()) || fresh(b)
    {
      Disjoint();
      Receive(bytes, failed);
      ForwardTraffic();
    }

    method Receive(bytes: seq<Byte>, failed: bool)
      requires Upward() && forwarding && up.reading && |bytes| <= up.buffer.grantLen
      modifies up`received, up`readable, up`sendShut, up`reading, up`greeting
      modifies up.buffer`layout, up.buffer`image, up.buffer`end, up.buffer`dataSize, up.buffer`reserved
      modifies up.buffer.repr`buf, up.buffer.repr`len
      ensures Upward() && up.received == old(up.received) + bytes && up.readable == !failed && up.Closing()
      ensures !old(up.sendShut) && up.Now() == AfterRead(old(up.Now()), bytes, failed)
    {
      assert Open(this, 0) && Open(socks, 0);
      up.ReadHandler(bytes, failed);
      Finished(step, old(up.received), bytes);
    }

    method DestWriteHandler(size: nat, failed: bool)
      requires Valid() && forwarding && up.Closing() && down.Closing() && up.writing && size <= up.buffer.viewLen
      modifies up`delivered, up`moved, up`writable, up`sendShut, up`receiveShut
      modifies up`readSpans, up`readPieces, up`reading, up`greeting, up`writeSpans, up`writePieces, up`writing
      modifies up.buffer, up.buffer.repr
      modifies down`readSpans, down`readPieces, down`reading, down`greeting
      modifies down`writeSpans, down`writePieces, down`writing
      modifies down.buffer, down.buffer.repr
      modifies list, list.pool
      ensures Valid() && Live() && (old(up.sendShut) ==> up.sendShut) && size <= |old(up.Now()).data|
      ensures Traffic() == old(Traffic()).(toDest := old(up.delivered) + old(up.Now()).data[..size],
                                           destShut := up.sendShut)
      ensures Started(AfterWrite(old(up.Now()), size, failed), up.Now()) && Started(old(down.Now()), down.Now())
      ensures forall b :: b in Owned() ==> b in old(Owned()) || fresh(b)
    {
      Disjoint();
      Deliver(size, failed);
      Disjoint();
      ForwardTraffic();
    }

    method Deliver(size: nat, failed: bool)
      requires Upward() && up.buffer.freelist == list && list.Valid() && forwarding
      requires up.writing && size <= up.buffer.viewLen
      modifies up`delivered, up`moved, up`writable, up`sendShut, up`receiveShut, up`writing
      modifies up.buffer, up.buffer.repr, list
      ensures Upward() && list.Valid() && up.Closing() && !old(up.sendShut)
      ensures size <= |old(up.Now()).data| && up.delivered == old(up.delivered) + old(up.Now()).data[..size]
      ensures up.Now() == AfterWrite(old(up.Now()), size, failed)
      ensures forall b :: b in up.buffer.repr || b in list.pool ==>
                b in old(up.buffer.repr) || b in old(list.pool) || fresh(b)
    {
      assert Open(this, 0);
      up.WriteHandler(size, failed);
    }

    method DestReadHandler(bytes: seq<Byte>, failed: bool)
      requires Valid() && forwarding && up.Closing() && down.Closing()
      requires down.reading && |bytes| <= down.buffer.grantLen
      modifies down`received, down`readable, down`sendShut
      modifies up`readSpans, up`readPieces, up`reading, up`greeting, up`writeSpans, up`writePieces, up`writing
      modifies up.buffer, up.buffer.repr
      modifies down`readSpans, down`readPieces, down`reading, down`greeting
      modifies down`writeSpans, down`writePieces, down`writing
      modifies down.buffer, down.buffer.repr
      modifies list, list.pool
      ensures Valid() && Live() && down.readable == !failed
      ensures Traffic() == old(Traffic()).(fromDest := old(down.received) + bytes, clientShut := down.sendShut)
      ensures Started(AfterRead(old(down.Now()), bytes, failed), down.Now()) && Started(old(up.Now()), up.Now())
      ensures old(down.sendShut) ==> down.sendShut
      ensures forall b :: b in Owned() ==> b in old(Owned()) || fresh(b)
    {
      Disjoint();
      ReceiveDown(bytes, failed);
      ForwardTraffic();
    }

    method ReceiveDown(bytes: seq<Byte>, failed: bool)
      requires Downward() && forwarding && down.reading && |bytes| <= down.buffer.grantLen
      modifies down`received, down`readable, down`sendShut, down`reading, down`greeting
      modifies down.buffer`layout, down.buffer`image, down.buffer`end, down.buffer`dataSize, down.buffer`reserved
      modifies down.buffer.repr`buf, down.buffer.repr`len
      ensures Downward() && down.received == old(down.received) + bytes && down.readable == !failed && down.Closing()
      ensures !old(down.sendShut) && down.Now() == AfterRead(old(down.Now()), bytes, failed)
    {
      assert OpenInner(this, 0);
      down.ReadHandler(bytes, failed);
    }

    method ClientWriteHandler(size: nat, failed: bool)
      requires Valid() && forwarding && up.Closing() && down.Closing() && down.writing && size <= down.buffer.viewLen
      modifies down`delivered, down`moved, down`writable, down`sendShut, down`receiveShut
      modifies up`readSpans, up`readPieces, up`reading, up`greeting, up`writeSpans, up`writePieces, up`writing
      modifies up.buffer, up.buffer.repr
      modifies down`readSpans, down`readPieces, down`reading, down`greeting
      modifies down`writeSpans, down`writePieces, down`writing
      modifies down.buffer, down.buffer.repr
      modifies list, list.pool
      ensures Valid() && Live() && (old(down.sendShut) ==> down.sendShut) && size <= |old(down.Now()).data|
      ensures Traffic() == old(Traffic()).(toClient := old(down.delivered) + old(down.Now()).data[..size],
                                           clientShut := down.sendShut)
      ensures Started(AfterWrite(old(down.Now()), size, failed), down.Now()) && Started(old(up.Now()), up.Now())
      ensures forall b :: b in Owned() ==> b in old(Owned()) || fresh(b)
    {
      Disjoint();
      DeliverDown(size, failed);
      Disjoint();
      ForwardTraffic();
    }

    method DeliverDown(size: nat, failed: bool)
      requires Downward() && down.buffer.freelist == list && list.Valid() && forwarding
      requires down.writing && size <= down.buffer.viewLen
      modifies down`delivered, down`moved, down`writable, down`sendShut, down`receiveShut, down`writing
      modifies down.buffer, down.buffer.repr, list
      ensures Downward() && list.Valid() && down.Closing() && !old(down.sendShut)
      ensures size <= |old(down.Now()).data| && down.delivered == old(down.delivered) + old(down.Now()).data[..size]
      ensures down.Now() == AfterWrite(old(down.Now()), size, failed)
      ensures forall b :: b in down.buffer.repr || b in list.pool ==>
                b in old(down.buffer.repr) || b in old(list.pool) || fresh(b)
    {
      assert OpenInner(this, 0);
      down.WriteHandler(size, failed);
    }

    // ---------------------------------------------------------------- whole sessions

    /** Where a session stands between events. */
    ghost predicate Settled()
      reads this, list, list.pool, socks, up, down, up.buffer, down.buffer, up.buffer.repr, down.buffer.repr
    {
      Valid() && (forwarding ==> Live())
    }

    /** What holds of every settled session. */
    ghost predicate Laws()
      requires Valid()
      reads this, list, list.pool, socks, up, down, up.buffer, down.buffer, up.buffer.repr, down.buffer.repr
    {
      assert up.buffer.Valid() && down.buffer.Valid() && S.Sound(step) by {
        assert Open(this, 0) && OpenInner(this, 0);
      }
      // What was read is what the handshake took, what was written and what is buffered.
      && up.received == up.taken + up.delivered + up.buffer.Contents()
      && down.received == down.delivered + down.buffer.Contents()
      && (aborted || |up.taken| == Drive(step, S.Init, up.received).1)
      // The buffers are bounded.
      && up.buffer.dataSize <= MAX_BUFFER_SIZE + READ_SIZE + list.capacity - 2
      && down.buffer.dataSize <= MAX_BUFFER_SIZE + READ_SIZE + list.capacity - 2
      // Half-close is safe, and always happens.
      && (up.sendShut ==> !up.readable && up.received == up.taken + up.delivered && !up.writing)
      && (down.sendShut ==> !down.readable && down.received == down.delivered && !down.writing)
      && (forwarding && !up.readable && up.buffer.dataSize == 0 ==> up.sendShut)
      && (forwarding && !down.readable && down.buffer.dataSize == 0 ==> down.sendShut)
      // Nothing is outstanding only if the sink takes no more, or all is delivered.
      && (forwarding && !up.reading && !up.writing && up.writable ==>
            !up.readable && up.received == up.taken + up.delivered)
      && (forwarding && !down.reading && !down.writing && down.writable ==>
            !down.readable && down.received == down.delivered)
    }

    /** Traffic flows only after the handshake. */
    lemma InTraffic()
      requires Valid()
      ensures up.reading || up.writing || down.reading || down.writing ==> forwarding
      ensures up.greeting ==> !forwarding && !up.sendShut
    {
      assert Open(this, 0) && OpenInner(this, 0);
    }

    method OnGreeted(e: Event)
      requires Settled() && e.Greeted? && Can(Now(), e)
      modifies this`forwarding, this`aborted, socks, up, down, up.buffer, down.buffer
      modifies up.buffer.repr, down.buffer.repr, list, list.pool
      ensures Settled() && S.Machine(step, socks.cb) && Happens(step, socks.cb, old(Now()), e, Now())
      ensures forall b :: b in Owned() ==> b in old(Owned()) || fresh(b)
    {
      InTraffic();
      Answering();
      Socks5HandshakeHandler(e.bytes, e.failed);
    }

    method OnConnected(e: Event)
      requires Settled() && e.Connected? && Can(Now(), e)
      modifies this`forwarding, this`aborted, socks, up, down, up.buffer, down.buffer
      modifies up.buffer.repr, down.buffer.repr, list, list.pool
      ensures Settled() && S.Machine(step, socks.cb) && Happens(step, socks.cb, old(Now()), e, Now())
      ensures forall b :: b in Owned() ==> b in old(Owned()) || fresh(b)
    {
      InTraffic();
      Answering();
      ghost var m := Now();
      ConnectHandler(e.failed);
      ConnectHappens(step, socks.cb, m, Now(), e.failed);
    }

    method OnClientRead(e: Event)
      requires Settled() && e.ClientRead? && Can(Now(), e)
      modifies this`forwarding, this`aborted, socks, up, down, up.buffer, down.buffer
      modifies up.buffer.repr, down.buffer.repr, list, list.pool
      ensures Settled() && S.Machine(step, socks.cb) && Happens(step, socks.cb, old(Now()), e, Now())
      ensures forall b :: b in Owned() ==> b in old(Owned()) || fresh(b)
    {
      InTraffic();
      Answering();
      ghost var m := Now();
      ClientReadHandler(e.bytes, e.failed);
      ClientReadHappens(step, socks.cb, m, Now(), e.bytes, e.failed);
    }

    method OnDestWrite(e: Event)
      requires Settled() && e.DestWrite? && Can(Now(), e)
      modifies this`forwarding, this`aborted, socks, up, down, up.buffer, down.buffer
      modifies up.buffer.repr, down.buffer.repr, list, list.pool
      ensures Settled() && S.Machine(step, socks.cb) && Happens(step, socks.cb, old(Now()), e, Now())
      ensures forall b :: b in Owned() ==> b in old(Owned()) || fresh(b)
    {
      InTraffic();
      Answering();
      ghost var m := Now();
      DestWriteHandler(e.size, e.failed);
      DestWriteHappens(step, socks.cb, m, Now(), e.size, e.failed);
    }

    method OnDestRead(e: Event)
      requires Settled() && e.DestRead? && Can(Now(), e)
      modifies this`forwarding, this`aborted, socks, up, down, up.buffer, down.buffer
      modifies up.buffer.repr, down.buffer.repr, list, list.pool
      ensures Settled() && S.Machine(step, socks.cb) && Happens(step, socks.cb, old(Now()), e, Now())
      ensures forall b :: b in Owned() ==> b in old(Owned()) || fresh(b)
    {
      InTraffic();
      Answering();
      ghost var m := Now();
      DestReadHandler(e.bytes, e.failed);
      DestReadHappens(step, socks.cb, m, Now(), e.bytes, e.failed);
    }

    method OnClientWrite(e: Event)
      requires Settled() && e.ClientWrite? && Can(Now(), e)
      modifies this`forwarding, this`aborted, socks, up, down, up.buffer, down.buffer
      modifies up.buffer.repr, down.buffer.repr, list, list.pool
      ensures Settled() && S.Machine(step, socks.cb) && Happens(step, socks.cb, old(Now()), e, Now())
      ensures forall b :: b in Owned() ==> b in old(Owned()) || fresh(b)
    {
      InTraffic();
      Answering();
      ghost var m := Now();
      ClientWriteHandler(e.size, e.failed);
      ClientWriteHappens(step, socks.cb, m, Now(), e.size, e.failed);
    }

    /** An event happens. The streams grow by just what it brings, and what was shut down stays so. */
    method Handle(e: Event)
      requires Settled() && Can(Now(), e)
      modifies this`forwarding, this`aborted, socks, up, down, up.buffer, down.buffer
      modifies up.buffer.repr, down.buffer.repr, list, list.pool
      ensures Settled() && S.Machine(step, socks.cb) && Happens(step, socks.cb, old(Now()), e, Now())
      ensures forall b :: b in Owned() ==> b in old(Owned()) || fresh(b)
    {
      match e {
        case Greeted(_, _) => OnGreeted(e);
        case Connected(_) => OnConnected(e);
        case ClientRead(_, _) => OnClientRead(e);
        case DestWrite(_, _) => OnDestWrite(e);
        case DestRead(_, _) => OnDestRead(e);
        case ClientWrite(_, _) => OnClientWrite(e);
      }
    }

    lemma Inside()
      ensures up.buffer.repr <= Owned() && down.buffer.repr <= Owned() && list.pool <= Owned()
    {
    }

    /** Whether the event can happen. */
    method Check(e: Event) returns (b: bool)
      requires Settled()
      ensures b == Can(Now(), e)
    {
      Rooms();
      match e {
        case Greeted(bytes, _) => b := up.greeting && |bytes| <= up.ReadRoom();
        case Connected(_) =>
          b := socks.state == S.WaitConnect || socks.state == S.WaitAccept;
        case ClientRead(bytes, _) => b := up.reading && |bytes| <= up.ReadRoom();
        case DestWrite(size, _) => b := up.writing && size <= up.WriteRoom();
        case DestRead(bytes, _) => b := down.reading && |bytes| <= down.ReadRoom();
        case ClientWrite(size, _) => b := down.writing && size <= down.WriteRoom();
      }
    }

    lemma Rooms()
      requires Valid()
      ensures up.Valid() && down.Valid() && (Waiting() ==> !forwarding)
    {
      assert Open(this, 0) && OpenInner(this, 0);
    }

    /** What has gone through the bridge. */
    ghost function Traffic(): (t: Streams)
      reads up, down
    {
      Streams(up.received, up.delivered, up.sendShut, down.received, down.delivered, down.sendShut)
    }

    ghost function Now(): (m: Moment)
      reads this`forwarding, this`aborted, socks, up, down
      reads up.buffer`image, up.buffer`grantLen, up.buffer`viewLen
      reads down.buffer`image, down.buffer`grantLen, down.buffer`viewLen
    {
      Moment(Traffic(), socks.View(), forwarding, aborted, up.Now(), down.Now())
    }

    /** An event happens if and only if it can. */
    method Offer(e: Event)
      requires Settled()
      modifies this`forwarding, this`aborted, socks, up, down, up.buffer, down.buffer
      modifies up.buffer.repr, down.buffer.repr, list, list.pool
      ensures Settled() && S.Machine(step, socks.cb) && Moves(step, socks.cb, old(Now()), e, Now())
      ensures forall b :: b in Owned() ==> b in old(Owned()) || fresh(b)
    {
      Answering();
      var on := Check(e);
      if on {
        Handle(e);
      }
    }

    /** Any events in any order, as far as they can happen. `ms` are the moments before, between and
        after them.
     */
    method Run(events: seq<Event>) returns (ghost ms: seq<Moment>)
      requires Settled()
      modifies this`forwarding, this`aborted, socks, up, down, up.buffer, down.buffer
      modifies up.buffer.repr, down.buffer.repr, list, list.pool
      ensures Settled() && S.Machine(step, socks.cb) && History(step, socks.cb, ms, events)
      ensures ms[0] == old(Now()) && ms[|events|] == Now()
      ensures forall b :: b in Owned() ==> b in old(Owned()) || fresh(b)
    {
      Answering();
      ms := [Now()];
      for i := 0 to |events|
        invariant Settled() && History(step, socks.cb, ms, events[..i]) && ms[0] == old(Now()) && ms[i] == Now()
        invariant forall b :: b in Owned() ==> b in old(Owned()) || fresh(b)
      {
        Inside();
        Offer(events[i]);
        HistoryMore(step, socks.cb, ms, events, i, Now());
        ms := ms + [Now()];
      }
      assert events[..|events|] == events;
    }
  }

  /** What went into and came out of the two directions, and which sinks were shut down. */
  datatype Streams = Streams(fromClient: seq<Byte>, toDest: seq<Byte>, destShut: bool,
                             fromDest: seq<Byte>, toClient: seq<Byte>, clientShut: bool)

  /** The streams have grown by just what the event brings; what was delivered or shut stays so. */
  ghost predicate Follows(s: Streams, e: Event, t: Streams) {
    && t.fromClient == s.fromClient + FromClient(e) && t.fromDest == s.fromDest + FromDest(e)
    && s.toDest <= t.toDest && |t.toDest| == |s.toDest| + ToDest(e)
    && s.toClient <= t.toClient && |t.toClient| == |s.toClient| + ToClient(e)
    && (s.destShut ==> t.destShut) && (s.clientShut ==> t.clientShut)
  }

  /** The same for several events. */
  ghost predicate After(s: Streams, es: seq<Event>, t: Streams) {
    && t.fromClient == s.fromClient + AllFromClient(es) && t.fromDest == s.fromDest + AllFromDest(es)
    && s.toDest <= t.toDest && |t.toDest| == |s.toDest| + AllToDest(es)
    && s.toClient <= t.toClient && |t.toClient| == |s.toClient| + AllToClient(es)
    && (s.destShut ==> t.destShut) && (s.clientShut ==> t.clientShut)
  }

  lemma AfterNone(s: Streams)
    ensures After(s, [], s)
  {
  }

  lemma AfterMore(s: Streams, es: seq<Event>, t: Streams, e: Event, u: Streams)
    requires After(s, es, t) && Follows(t, e, u)
    ensures After(s, es + [e], u)
  {
    AllMore(es, e);
    Longer(s.fromClient, AllFromClient(es), FromClient(e));
    Longer(s.fromDest, AllFromDest(es), FromDest(e));
  }

  lemma Longer(a: seq<Byte>, b: seq<Byte>, c: seq<Byte>)
    ensures a + b + c == a + (b + c)
  {
  }

  /** What an event adds to the streams. */
  function FromClient(e: Event): (bytes: seq<Byte>) {
    if e.Greeted? || e.ClientRead? then e.bytes else []
  }

  function FromDest(e: Event): (bytes: seq<Byte>) {
    if e.DestRead? then e.bytes else []
  }

  function ToDest(e: Event): (n: nat) {
    if e.DestWrite? then e.size else 0
  }

  function ToClient(e: Event): (n: nat) {
    if e.ClientWrite? then e.size else 0
  }

  function AllFromClient(es: seq<Event>): (bytes: seq<Byte>) {
    if es == [] then [] else AllFromClient(es[..|es| - 1]) + FromClient(es[|es| - 1])
  }

  function AllFromDest(es: seq<Event>): (bytes: seq<Byte>) {
    if es == [] then [] else AllFromDest(es[..|es| - 1]) + FromDest(es[|es| - 1])
  }

  function AllToDest(es: seq<Event>): (n: nat) {
    if es == [] then 0 else AllToDest(es[..|es| - 1]) + ToDest(es[|es| - 1])
  }

  function AllToClient(es: seq<Event>): (n: nat) {
    if es == [] then 0 else AllToClient(es[..|es| - 1]) + ToClient(es[|es| - 1])
  }

  lemma AllMore(es: seq<Event>, e: Event)
    ensures AllFromClient(es + [e]) == AllFromClient(es) + FromClient(e)
    ensures AllFromDest(es + [e]) == AllFromDest(es) + FromDest(e)
    ensures AllToDest(es + [e]) == AllToDest(es) + ToDest(e) && AllToClient(es + [e]) == AllToClient(es) + ToClient(e)
  {
    assert (es + [e])[..|es|] == es;
  }

  /** What has come and gone so far, where the handshake stands, and both directions. */
  datatype Moment = Moment(streams: Streams, handshake: S.Handshake, forwarding: bool, aborted: bool,
                           up: Flow, down: Flow)

  /** The event can happen: its operation is under way, with room for that much. */
  predicate Can(m: Moment, e: Event) {
    match e
    case Greeted(bytes, _) => Fits(|bytes|, m.up.greeting)
    case Connected(_) => (m.handshake.state == S.WaitConnect || m.handshake.state == S.WaitAccept) && !m.forwarding
    case ClientRead(bytes, _) => Fits(|bytes|, m.up.reading)
    case DestWrite(size, _) => Fits(size, m.up.writing)
    case DestRead(bytes, _) => Fits(|bytes|, m.down.reading)
    case ClientWrite(size, _) => Fits(size, m.down.writing)
  }

  /** A read of the handshake has brought `bytes`: unless it failed, the handshake takes what it can, and if
      it is then short of data another read is under way.
   */
  ghost predicate Greets(step: S.Stepper, h: S.Handshake, f: Flow, bytes: seq<Byte>, failed: bool,
                         i: S.Handshake, g: Flow)
    requires S.Sound(step) && S.Ready(h)
  {
    var all := f.data + bytes;
    if failed then i == h && g == f.(data := all, greeting := None, reading := None)
    else
      var (end, m) := Drive(step, h, all);
      && i == end && g == f.(data := all[m..], greeting := g.greeting, reading := None)
      && if |g.data| < end.required then Fits(1, g.greeting) else g.greeting.None?
  }

  /** What an event that happens makes of the streams, the handshake and both directions. */
  ghost predicate Happens(step: S.Stepper, cb: S.Callbacks, m: Moment, e: Event, n: Moment)
    requires S.Machine(step, cb)
  {
    && S.Ready(m.handshake) && Follows(m.streams, e, n.streams)
    && match e
       case Greeted(bytes, failed) =>
         && Greets(step, m.handshake, m.up, bytes, failed, n.handshake, n.up)
         && n.down == m.down && n.forwarding == m.forwarding && n.aborted == failed
       case Connected(failed) =>
         if failed then n == m
         else
           && n.handshake == S.ConnectionSucceed(cb, m.handshake).0 && n.forwarding && n.aborted == m.aborted
           && Started(m.up, n.up) && Started(m.down, n.down)
       case ClientRead(bytes, failed) =>
         Passes(m, n) && Started(AfterRead(m.up, bytes, failed), n.up) && Started(m.down, n.down)
       case DestRead(bytes, failed) =>
         Passes(m, n) && Started(m.up, n.up) && Started(AfterRead(m.down, bytes, failed), n.down)
       case DestWrite(size, failed) =>
         && Passes(m, n) && size <= |m.up.data| && n.streams.toDest == m.streams.toDest + m.up.data[..size]
         && Started(AfterWrite(m.up, size, failed), n.up) && Started(m.down, n.down)
       case ClientWrite(size, failed) =>
         && Passes(m, n) && size <= |m.down.data| && n.streams.toClient == m.streams.toClient + m.down.data[..size]
         && Started(m.up, n.up) && Started(AfterWrite(m.down, size, failed), n.down)
  }

  /** Traffic does not concern the handshake. */
  predicate Passes(m: Moment, n: Moment) {
    n.handshake == m.handshake && n.forwarding == m.forwarding && n.aborted == m.aborted
  }

  lemma ClientReadHappens(step: S.Stepper, cb: S.Callbacks, m: Moment, n: Moment, bytes: seq<Byte>, failed: bool)
    requires S.Machine(step, cb) && S.Ready(m.handshake) && Passes(m, n)
    requires n.streams == m.streams.(fromClient := m.streams.fromClient + bytes, destShut := n.streams.destShut)
    requires (m.streams.destShut ==> n.streams.destShut)
    requires Started(AfterRead(m.up, bytes, failed), n.up) && Started(m.down, n.down)
    ensures Happens(step, cb, m, ClientRead(bytes, failed), n)
  {
  }

  lemma DestReadHappens(step: S.Stepper, cb: S.Callbacks, m: Moment, n: Moment, bytes: seq<Byte>, failed: bool)
    requires S.Machine(step, cb) && S.Ready(m.handshake) && Passes(m, n)
    requires n.streams == m.streams.(fromDest := m.streams.fromDest + bytes, clientShut := n.streams.clientShut)
    requires (m.streams.clientShut ==> n.streams.clientShut)
    requires Started(m.up, n.up) && Started(AfterRead(m.down, bytes, failed), n.down)
    ensures Happens(step, cb, m, DestRead(bytes, failed), n)
  {
  }

  lemma DestWriteHappens(step: S.Stepper, cb: S.Callbacks, m: Moment, n: Moment, size: nat, failed: bool)
    requires S.Machine(step, cb) && S.Ready(m.handshake) && Passes(m, n) && size <= |m.up.data|
    requires n.streams == m.streams.(toDest := m.streams.toDest + m.up.data[..size], destShut := n.streams.destShut)
    requires (m.streams.destShut ==> n.streams.destShut)
    requires Started(AfterWrite(m.up, size, failed), n.up) && Started(m.down, n.down)
    ensures Happens(step, cb, m, DestWrite(size, failed), n)
  {
  }

  lemma ClientWriteHappens(step: S.Stepper, cb: S.Callbacks, m: Moment, n: Moment, size: nat, failed: bool)
    requires S.Machine(step, cb) && S.Ready(m.handshake) && Passes(m, n) && size <= |m.down.data|
    requires n.streams == m.streams.(toClient := m.streams.toClient + m.down.data[..size],
                                     clientShut := n.streams.clientShut)
    requires (m.streams.clientShut ==> n.streams.clientShut)
    requires Started(m.up, n.up) && Started(AfterWrite(m.down, size, failed), n.down)
    ensures Happens(step, cb, m, ClientWrite(size, failed), n)
  {
  }

  lemma ConnectHappens(step: S.Stepper, cb: S.Callbacks, m: Moment, n: Moment, failed: bool)
    requires S.Machine(step, cb) && S.Ready(m.handshake) && n.streams == m.streams && n.aborted == m.aborted
    requires n.forwarding == !failed && !m.forwarding
    requires if failed then n.handshake == m.handshake && n.up == m.up && n.down == m.down
             else
               && n.handshake == S.ConnectionSucceed(cb, m.handshake).0
               && Started(m.up, n.up) && Started(m.down, n.down)
    ensures Happens(step, cb, m, Connected(failed), n)
  {
  }

  ghost predicate Moves(step: S.Stepper, cb: S.Callbacks, m: Moment, e: Event, n: Moment)
    requires S.Machine(step, cb)
  {
    if Can(m, e) then Happens(step, cb, m, e, n) else n == m
  }

  ghost predicate History(step: S.Stepper, cb: S.Callbacks, ms: seq<Moment>, events: seq<Event>)
    requires S.Machine(step, cb)
  {
    |ms| == |events| + 1 && forall i :: 0 <= i < |events| ==> Moves(step, cb, ms[i], events[i], ms[i + 1])
  }

  lemma HistoryMore(step: S.Stepper, cb: S.Callbacks, ms: seq<Moment>, events: seq<Event>, i: nat, n: Moment)
    requires S.Machine(step, cb) && i < |events| && History(step, cb, ms, events[..i])
    requires Moves(step, cb, ms[i], events[i], n)
    ensures History(step, cb, ms + [n], events[..i + 1])
  {
    var ns, es := ms + [n], events[..i + 1];
    forall k | 0 <= k < |es| ensures Moves(step, cb, ns[k], es[k], ns[k + 1]) {
      if k < i {
        assert events[..i][k] == es[k] && ns[k] == ms[k] && ns[k + 1] == ms[k + 1];
      }
    }
  }

  /** The events that happened. */
  function Happened(ms: seq<Moment>, events: seq<Event>): (es: seq<Event>)
    requires |ms| == |events| + 1
  {
    if events == [] then []
    else
      var n := |events| - 1;
      Happened(ms[..n + 1], events[..n]) + if Can(ms[n], events[n]) then [events[n]] else []
  }

  /** What an event tells the bridge: the streams grow, and each outcome has its mark. */
  ghost predicate Reports(m: Moment, e: Event, n: Moment) {
    && Follows(m.streams, e, n.streams)
    && n.forwarding == (m.forwarding || e == Connected(false))
    && n.aborted == (if e.Greeted? then e.failed else m.aborted)
    && (n.up.greeting.Some? ==> m.up.greeting.Some? && !(e.Greeted? && e.failed))
    && Marks(m.up, e.ClientRead? && e.failed, e.DestWrite? && e.failed, n.up)
    && Marks(m.down, e.DestRead? && e.failed, e.ClientWrite? && e.failed, n.down)
  }

  /** What a failed read and a failed write leave behind. */
  predicate Marks(f: Flow, noRead: bool, noWrite: bool, g: Flow) {
    && g.readable == (f.readable && !noRead) && g.receiveShut == (f.receiveShut || noWrite)
    && (g.writable ==> f.writable && !noWrite) && (f.writable && !g.writable && !noWrite ==> g.sendShut)
    && (f.sendShut ==> g.sendShut)
  }

  lemma HappensReports(step: S.Stepper, cb: S.Callbacks, m: Moment, e: Event, n: Moment)
    requires S.Machine(step, cb) && Happens(step, cb, m, e, n) && Can(m, e)
    ensures Reports(m, e, n)
  {
  }

  ghost predicate Reported(ms: seq<Moment>, events: seq<Event>) {
    && |ms| == |events| + 1
    && forall i :: 0 <= i < |events| ==>
         if Can(ms[i], events[i]) then Reports(ms[i], events[i], ms[i + 1]) else ms[i + 1] == ms[i]
  }

  lemma HistoryReported(step: S.Stepper, cb: S.Callbacks, ms: seq<Moment>, events: seq<Event>)
    requires S.Machine(step, cb) && History(step, cb, ms, events)
    ensures Reported(ms, events)
  {
    forall i | 0 <= i < |events|
      ensures if Can(ms[i], events[i]) then Reports(ms[i], events[i], ms[i + 1]) else ms[i + 1] == ms[i]
    {
      assert Moves(step, cb, ms[i], events[i], ms[i + 1]);
      if Can(ms[i], events[i]) {
        HappensReports(step, cb, ms[i], events[i], ms[i + 1]);
      }
    }
  }

  /** The streams are made of just what the events that happened brought. */
  lemma {:induction false} HistoryAfter(ms: seq<Moment>, events: seq<Event>)
    requires Reported(ms, events)
    ensures After(ms[0].streams, Happened(ms, events), ms[|events|].streams)
  {
    if events == [] {
      AfterNone(ms[0].streams);
    } else {
      var n := |events| - 1;
      HistoryAfter(ms[..n + 1], events[..n]);
      if Can(ms[n], events[n]) {
        AfterMore(ms[0].streams, Happened(ms[..n + 1], events[..n]), ms[n].streams, events[n], ms[n + 1].streams);
      } else {
        assert Happened(ms, events) == Happened(ms[..n + 1], events[..n]);
      }
    }
  }

  ghost predicate Ever(es: seq<Event>, p: Event -> bool) {
    exists i :: 0 <= i < |es| && p(es[i])
  }

  lemma EverMore(es: seq<Event>, e: Event, p: Event -> bool)
    ensures Ever(es + [e], p) == (Ever(es, p) || p(e))
  {
    var all := es + [e];
    if p(e) {
      assert p(all[|es|]);
    }
    if i :| 0 <= i < |es| && p(es[i]) {
      assert p(all[i]);
    }
  }

  const FailedGreeting := (e: Event) => e.Greeted? && e.failed
  const FailedClientRead := (e: Event) => e.ClientRead? && e.failed
  const FailedClientWrite := (e: Event) => e.ClientWrite? && e.failed
  const FailedDestRead := (e: Event) => e.DestRead? && e.failed
  const FailedDestWrite := (e: Event) => e.DestWrite? && e.failed
  const Linking := (e: Event) => e == Connected(false)

  /** The moment shows how the events that happened have ended: traffic is forwarded exactly if the connection
      was made, the handshake was given up exactly if a read of it failed, a socket is read on exactly if no
      read of it failed, and the source is shut down exactly if a write to the sink failed. Unless it was
      shut down for sending, a sink is written on exactly if no write to it failed.
   */
  ghost predicate Shows(m: Moment, es: seq<Event>) {
    && m.forwarding == Ever(es, Linking) && m.aborted == Ever(es, FailedGreeting)
    && m.up.readable == !Ever(es, FailedClientRead) && m.up.receiveShut == Ever(es, FailedDestWrite)
    && m.down.readable == !Ever(es, FailedDestRead) && m.down.receiveShut == Ever(es, FailedClientWrite)
    && (m.up.sendShut || m.up.writable == !Ever(es, FailedDestWrite))
    && (m.down.sendShut || m.down.writable == !Ever(es, FailedClientWrite))
    && (m.up.writable ==> !m.up.receiveShut) && (m.down.writable ==> !m.down.receiveShut)
    && (m.aborted ==> m.up.greeting.None?)
  }

  lemma {:induction false} Outcomes(ms: seq<Moment>, events: seq<Event>)
    requires Reported(ms, events) && Shows(ms[0], [])
    ensures Shows(ms[|events|], Happened(ms, events))
  {
    if events != [] {
      var n := |events| - 1;
      Outcomes(ms[..n + 1], events[..n]);
      var es := Happened(ms[..n + 1], events[..n]);
      if Can(ms[n], events[n]) {
        ShowsMore(ms[n], es, events[n], ms[n + 1]);
      } else {
        assert Happened(ms, events) == es;
      }
    }
  }

  lemma ShowsMore(m: Moment, es: seq<Event>, e: Event, n: Moment)
    requires Shows(m, es) && Reports(m, e, n) && Can(m, e)
    ensures Shows(n, es + [e])
  {
    EverMore(es, e, Linking);
    EverMore(es, e, FailedGreeting);
    EverMore(es, e, FailedClientRead);
    EverMore(es, e, FailedClientWrite);
    EverMore(es, e, FailedDestRead);
    EverMore(es, e, FailedDestWrite);
  }

  /** A whole session from the start. At its end, as at all times, what was read from each side is what
      the handshake took, what was written to the other side and what is still buffered, in this
      order. The handshake took exactly what Drive takes of the client's bytes. The buffers are
      bounded. A side was shut down for sending exactly if the other side has ended and all it sent
      is delivered. No direction gets stuck. `ms` are the moments before, between and after the events:
      each event that can happen does.
   */
  method Session(list: Freelist, cb: S.Callbacks, events: seq<Event>) returns (b: ProxyBridge, ghost ms: seq<Moment>)
    requires list.Valid() && list.capacity > 0 && cb.hasReply
    modifies list, list.pool
    ensures b.Settled() && b.list == list && S.Machine(b.step, cb) && History(b.step, cb, ms, events)
    ensures ms[0] == Moment(Streams([], [], false, [], [], false), S.Init, false, false,
                            IDLE.(greeting := ms[0].up.greeting), IDLE)
    ensures Fits(1, ms[0].up.greeting) && ms[|events|] == b.Now()
    ensures After(ms[0].streams, Happened(ms, events), b.Traffic()) && b.Laws()
    ensures Shows(b.Now(), Happened(ms, events))
  {
    b := new ProxyBridge(list, cb);
    b.PerformSocks5Handshake();
    b.Inside();
    ms := b.Run(events);
    HistoryReported(b.step, cb, ms, events);
    HistoryAfter(ms, events);
    Outcomes(ms, events);
    SessionLaws(b);
  }

  lemma SessionLaws(b: ProxyBridge)
    requires b.Settled()
    ensures b.Laws()
  {
    assert Open(b, 0) && OpenInner(b, 0) && Open(b.socks, 0);
    b.up.buffer.Homes();
    b.down.buffer.Homes();
    assert b.down.taken + b.down.delivered == b.down.delivered;
  }

  /** What comes after the handshake is not taken by it. */
  lemma Finished(step: S.Stepper, received: seq<Byte>, bytes: seq<Byte>)
    requires S.Sound(step) && Over(Drive(step, S.Init, received).0)
    ensures Drive(step, S.Init, received + bytes) == Drive(step, S.Init, received)
  {
    var (d, n) := Drive(step, S.Init, received);
    DriveMore(step, S.Init, received, bytes);
    DriveHalted(step, d, received[n..] + bytes);
  }

  /** Driving on from where the handshake stood is driving over everything received. */
  lemma Resumed(step: S.Stepper, h: S.Handshake, received: seq<Byte>, taken: nat, left: seq<Byte>, bytes: seq<Byte>)
    requires S.Sound(step) && S.Ready(h)
    requires var (d, n) := Drive(step, S.Init, received); S.Same(h, d) && n == taken && left == received[n..]
    ensures var (end, m) := Drive(step, h, left + bytes); var (all, n) := Drive(step, S.Init, received + bytes);
      S.Same(end, all) && taken + m == n
  {
    var (d, _) := Drive(step, S.Init, received);
    DriveMore(step, S.Init, received, bytes);
    if h.state == S.Fail {
      DriveHalted(step, h, left + bytes);
      DriveHalted(step, d, left + bytes);
    }
  }

  lemma RequiredSmall(cb: S.Callbacks, h: S.Handshake, data: seq<Byte>)
    requires S.Ready(h) && cb.hasReply && h.required <= 255
    ensures S.Proceed(cb, h, data).next.required <= 255
  {
  }

  /** No more data can change where the handshake stands. */
  predicate Over(h: S.Handshake) {
    (h.state == S.WaitConnect || h.state == S.WaitAccept) && h.required == 0
  }
}
