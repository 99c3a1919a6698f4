/** The class Socks5State of src/aws/proxy/socks5_state.cc over a real buffer. It refines the step
    functions of module Socks5.
 */
module Socks5States {
  import opened Buffers
  import Spec = Socks5
  import opened Socks5

  class Socks5State {
    const cb: Callbacks
    var state: State
    var required: nat
    var log: Log  // the callbacks called so far

    function View(): (h: Handshake)
      reads this
    {
      Handshake(state, required, log)
    }

    ghost predicate Valid()
      reads this
    {
      Ready(View()) && cb.hasReply
    }

    constructor (cb: Callbacks)
      requires cb.hasReply
      ensures Valid() && View() == Init && this.cb == cb
    {
      this.cb := cb;
      state, required, log := GreetingHeader, 2, [];
    }

    function InsufficientBuffer(buffer: Buffer): (b: bool)
      requires buffer.Valid()
      reads this, buffer, buffer.repr
      ensures b <==> |buffer.Contents()| < required
    {
      buffer.dataSize < required
    }

    /** From `h` and the data in the buffer, exactly the step `s` was made. */
    ghost predicate Did(s: Step, data: Bytes, buffer: Buffer)
      reads this, buffer, buffer.repr
    {
      && Valid() && View() == s.next && buffer.Valid() && !buffer.peeked
      && s.used <= |data| && buffer.Contents() == data[s.used..]
    }

    method Respond(bytes: Bytes) returns (status: Status)
      modifies this`log
      ensures log == old(log) + [Reply(bytes)] && status == cb.reply(log)
    {
      log := log + [Reply(bytes)];
      status := cb.reply(log);
    }

    method ReadGreeting(buffer: Buffer)
      requires Valid() && buffer.Valid() && buffer.freelist.Valid() && !buffer.peeked
      requires required <= buffer.dataSize && state == GreetingHeader
      modifies this`state, this`required, buffer, buffer.repr, buffer.freelist
      ensures var data := old(buffer.Contents()); var s := Spec.Proceed(cb, old(View()), data);
        Did(s, data, buffer) && s.go == (state != Fail)
      ensures buffer.freelist.Valid() && buffer.reserved == old(buffer.reserved) && buffer.repr <= old(buffer.repr)
      ensures buffer.freelist.pool <= old(buffer.freelist.pool + buffer.repr)
    {
      var greeting := buffer.CopyOut(2);
      if greeting[0] != 5 || greeting[1] == 0 {
        state := Fail;
      } else {
        required, state := greeting[1], GreetingMethods;
      }
    }

    method ReadMethods(buffer: Buffer)
      requires Valid() && buffer.Valid() && buffer.freelist.Valid() && !buffer.peeked
      requires required <= buffer.dataSize && state == GreetingMethods
      modifies this`state, this`required, this`log, buffer, buffer.repr, buffer.freelist
      ensures var data := old(buffer.Contents()); var s := Spec.Proceed(cb, old(View()), data);
        Did(s, data, buffer) && s.go == (state != Fail)
      ensures buffer.freelist.Valid() && buffer.reserved == old(buffer.reserved) && buffer.repr <= old(buffer.repr)
      ensures buffer.freelist.pool <= old(buffer.freelist.pool + buffer.repr)
    {
      ghost var data := buffer.Contents();
      var methods := buffer.CopyOut(required);
      AnswerGreeting(methods, data);
    }

    method AnswerGreeting(methods: Bytes, ghost data: Bytes)
      requires Valid() && state == GreetingMethods && required <= |data| && methods == data[..required]
      modifies this`state, this`required, this`log
      ensures Valid() && View() == Spec.Proceed(cb, old(View()), data).next
    {
      if 0 !in methods {
        state := Fail;
        return;
      }
      var ret := Respond(GREETING_REPLY);
      if ret != StatusOK {
        state := Fail;
      } else {
        state, required := RequestHeader, 4;
      }
    }

    method ReadHeader(buffer: Buffer)
      requires Valid() && buffer.Valid() && buffer.freelist.Valid() && !buffer.peeked
      requires required <= buffer.dataSize && state == RequestHeader
      modifies this`state, this`required, buffer, buffer.repr, buffer.freelist
      ensures var data := old(buffer.Contents()); var s := Spec.Proceed(cb, old(View()), data);
        Did(s, data, buffer) && s.go == (state != Fail)
      ensures buffer.freelist.Valid() && buffer.reserved == old(buffer.reserved) && buffer.repr <= old(buffer.repr)
      ensures buffer.freelist.pool <= old(buffer.freelist.pool + buffer.repr)
    {
      var header := buffer.CopyOut(4);
      ProceedMore(cb, old(View()), header, buffer.Contents());
      TakeHeader(header);
    }

    method TakeHeader(header: Bytes)
      requires Valid() && state == RequestHeader && |header| == 4
      modifies this`state, this`required
      ensures Valid()
      ensures var s := Spec.Proceed(cb, old(View()), header); View() == s.next && s.go == (state != Fail)
    {
      if header[0] != 5 || header[2] != 0 {
        state := Fail;
      } else if header[1] == 1 {
        if header[3] == 1 {
          state, required := RequestAddrV4, 6;
        } else if header[3] == 4 {
          state, required := RequestAddrV6, 18;
        } else {
          state := Fail;
        }
      } else if header[1] == 2 {
        if header[3] == 1 {
          state, required := RequestBind, 6;
        } else if header[3] == 4 {
          state, required := RequestBind, 18;
        } else {
          state := Fail;
        }
      } else {
        state := Fail;
      }
    }

    /** Takes n bytes and then a port. */
    method CopyAddress(buffer: Buffer, n: nat) returns (addr: Bytes, port: Port)
      requires buffer.Valid() && buffer.freelist.Valid() && !buffer.peeked && n + 2 <= buffer.dataSize
      modifies buffer, buffer.repr, buffer.freelist
      ensures buffer.Valid() && !buffer.peeked
      ensures var data := old(buffer.Contents());
        addr == data[..n] && port == data[n..n + 2] && buffer.Contents() == data[n + 2..]
      ensures buffer.freelist.Valid() && buffer.reserved == old(buffer.reserved) && buffer.repr <= old(buffer.repr)
      ensures buffer.freelist.pool <= old(buffer.freelist.pool + buffer.repr)
    {
      addr := buffer.CopyOut(n);
      var last := buffer.CopyOut(2);
      port := last;
    }

    method StartConnect(to: Endpoint) returns (go: bool)
      modifies this`state, this`required, this`log
      ensures var s := Spec.StartConnect(cb, old(View()), to, 0); View() == s.next && go == s.go
    {
      required := 0;
      if !cb.hasConnect {
        state := WaitConnect;
        return true;
      }
      log := log + [Connect(to)];
      match cb.connect(log) {
        case StatusOK => state := Response; return true;
        case StatusInProgress => state := WaitConnect; return false;
        case StatusFail => state := Fail; return false;
      }
    }

    method ReadAddress(buffer: Buffer) returns (go: bool)
      requires Valid() && buffer.Valid() && buffer.freelist.Valid() && !buffer.peeked && required <= buffer.dataSize
      requires state == RequestAddrV4 || state == RequestAddrV6
      modifies this`state, this`required, this`log, buffer, buffer.repr, buffer.freelist
      ensures var data := old(buffer.Contents()); var s := Spec.Proceed(cb, old(View()), data);
        Did(s, data, buffer) && s.go == go
      ensures buffer.freelist.Valid() && buffer.reserved == old(buffer.reserved) && buffer.repr <= old(buffer.repr)
      ensures buffer.freelist.pool <= old(buffer.freelist.pool + buffer.repr)
    {
      if state == RequestAddrV4 {
        var addr, port := CopyAddress(buffer, 4);
        go := StartConnect(V4(addr, port));
      } else {
        var addr, port := CopyAddress(buffer, 16);
        go := StartConnect(V6(addr, port));
      }
    }

    method ReadBind(buffer: Buffer)
      requires Valid() && buffer.Valid() && buffer.freelist.Valid() && !buffer.peeked
      requires required <= buffer.dataSize && state == RequestBind
      modifies this`state, this`required, this`log, buffer, buffer.repr, buffer.freelist
      ensures var data := old(buffer.Contents()); var s := Spec.Proceed(cb, old(View()), data);
        Did(s, data, buffer) && !s.go
      ensures buffer.freelist.Valid() && buffer.reserved == old(buffer.reserved) && buffer.repr <= old(buffer.repr)
      ensures buffer.freelist.pool <= old(buffer.freelist.pool + buffer.repr)
    {
      ghost var data := buffer.Contents();
      var _, port := CopyAddress(buffer, required - 2);
      AnswerBind(port, data);
    }

    method AnswerBind(port: Port, ghost data: Bytes)
      requires Valid() && state == RequestBind && required <= |data| && port == data[required - 2..required]
      modifies this`state, this`required, this`log
      ensures Valid() && View() == Spec.Proceed(cb, old(View()), data).next
    {
      required := 0;
      log := log + [Bind(port)];
      var (ret, bound) := cb.bind(log);
      if ret == StatusFail {
        state := Fail;
        return;
      }
      ret := Respond(BindReply(bound));
      state := if ret == StatusFail then Fail else WaitAccept;
    }

    /** Performs one state transition. */
    method Proceed(buffer: Buffer) returns (go: bool)
      requires Valid() && buffer.Valid() && buffer.freelist.Valid() && !buffer.peeked
      modifies this`state, this`required, this`log, buffer, buffer.repr, buffer.freelist
      ensures var data := old(buffer.Contents()); var s := Spec.Proceed(cb, old(View()), data);
        Did(s, data, buffer) && s.go == go
      ensures buffer.freelist.Valid() && buffer.reserved == old(buffer.reserved) && buffer.repr <= old(buffer.repr)
      ensures buffer.freelist.pool <= old(buffer.freelist.pool + buffer.repr)
    {
      if InsufficientBuffer(buffer) {
        return false;
      }
      match state {
        case GreetingHeader => ReadGreeting(buffer);
        case GreetingMethods => ReadMethods(buffer);
        case RequestHeader => ReadHeader(buffer);
        case RequestAddrV4 => go := ReadAddress(buffer); return;
        case RequestAddrV6 => go := ReadAddress(buffer); return;
        case RequestBind => ReadBind(buffer); return false;
        case Response =>
          var ret := Respond(CreateResp(cb.address(log, false)));
          if ret != StatusOK {
            state := Fail;
          } else {
            state, required := Success, 1;
          }
        case Fail => required := 0; return false;
        case _ => return false;
      }
      return state != Fail;
    }

    /** Sends the final reply and, sent or not, ends the handshake. */
    method ConnectionSucceed() returns (ok: bool)
      requires Valid()
      modifies this`state, this`log
      ensures Valid() && (View(), ok) == Spec.ConnectionSucceed(cb, old(View()))
    {
      var resp: Bytes;
      match state {
        case WaitConnect => resp := CreateResp(cb.address(log, false));
        case WaitAccept => resp := CreateResp(cb.address(log, true));
        case _ => state := Fail; return false;
      }
      var ret := Respond(resp);
      if ret != StatusOK {
        state := Fail;
      }
      state := Success;
      return state == Success;
    }
  }
}
