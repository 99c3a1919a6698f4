/** The two clients of the proxy: the interposed connect of src/aws/proxy/preload.cc and the
    session pool of src/aws/proxy/client_session_pool.cc. Both send their messages in one piece
    and then read the replies; here they meet the server side of module Socks5.
 */
module Wire {
  import opened Common
  import opened Socks5
  import opened Driver
  import opened Socks5Laws

  /** What the next recv will do: deliver at most so many bytes, be interrupted, or fail. */
  datatype Weather = Calm(most: nat) | Interrupted | Broken

  /** A blocking socket: what the peer will have sent before closing, and how receiving goes. Once
      `ahead` is used up, every recv delivers all it is asked for if the peer has sent that much.
   */
  class Socket {
    var incoming: Bytes
    var ahead: seq<Weather>
    var sent: Bytes

    constructor (incoming: Bytes, ahead: seq<Weather>)
      ensures this.incoming == incoming && this.ahead == ahead && sent == []
    {
      this.incoming, this.ahead, sent := incoming, ahead, [];
    }

    /** send, which returns `accepted`. */
    method Send(msg: Bytes, accepted: int)
      modifies this`sent
      ensures sent == old(sent) + Gone(msg, accepted)
    {
      sent := sent + Gone(msg, accepted);
    }

    /** recv: None is an error, which is only an interruption if `interrupted`; [] is the end. */
    method Recv(max: nat) returns (got: Option<Bytes>, interrupted: bool)
      requires max > 0
      modifies this`incoming, this`ahead
      ensures got.None? ==>
                && old(ahead) != [] && ahead == old(ahead)[1..] && incoming == old(incoming)
                && interrupted == old(ahead)[0].Interrupted? && (!interrupted ==> old(ahead)[0].Broken?)
      ensures got.Some? ==>
                && old(incoming) == got.value + incoming && |got.value| <= max
                && (got.value == [] <==> old(incoming) == [])
                && (ahead == old(ahead) == [] || (old(ahead) != [] && ahead == old(ahead)[1..]))
    {
      got, interrupted := None, false;
      var n := max;
      if ahead != [] {
        var now := ahead[0];
        ahead := ahead[1..];
        match now {
          case Interrupted => interrupted := true; return;
          case Broken => return;
          case Calm(most) => n := if most == 0 then 1 else if most < max then most else max;
        }
      }
      n := if n < |incoming| then n else |incoming|;
      got, incoming := Some(incoming[..n]), incoming[n..];
    }

    /** recv_all: receives `len` bytes, or what there is before an error or the end. */
    method RecvAll(len: nat) returns (got: Bytes)
      modifies this`incoming, this`ahead
      ensures old(incoming) == got + incoming && |got| <= len
      ensures Broken !in old(ahead) ==> Broken !in ahead && (|got| == len || incoming == [])
    {
      got := [];
      while |got| < len
        invariant |got| <= len && old(incoming) == got + incoming
        invariant Broken !in old(ahead) ==> Broken !in ahead
        decreases |ahead|, len - |got|
      {
        var more, interrupted := Recv(len - |got|);
        match more {
          case None =>
            if !interrupted {
              return;
            }
          case Some(bytes) =>
            if bytes == [] {
              return;
            }
            got := got + bytes;
        }
      }
    }
  }

  const EXPECTED: Bytes := [5, 0, 5, 0, 0]

  /** How many bytes of a reply follow the first byte of its address. */
  function Remaining(atyp: int, extra: int): (n: int) {
    if atyp == 1 then 5 else if atyp == 3 then extra + 2 else if atyp == 4 then 17 else 0
  }

  /** What the connecting client makes of the bytes the server sends: its return value and how many
      of them it takes.
   */
  function Answer(s: Bytes): (r: (int, nat))
    ensures r.1 <= |s| && -255 <= r.0 <= 0
  {
    if |s| < 7 then (-1, |s|)
    else if s[..5] != EXPECTED then (if s[3] != 0 then -(s[3] as int) else -1, 7)
    else
      var n := Remaining(s[5], s[6]);
      if |s| - 7 < n then (-1, |s|) else (0, 7 + n)
  }

  /** An error code in the reply is what the client returns, negated. */
  lemma AnswerRefused(code: int, rest: Bytes)
    requires 0 < code < 256 && |rest| >= 2
    ensures Answer(GREETING_REPLY + [5, code, 0] + rest) == (-code, 7)
  {
    var s := GREETING_REPLY + [5, code, 0] + rest;
    assert s[..5][3] == code != EXPECTED[3];
  }

  /** A reply that tells a name, of section 4 of RFC 1928, is taken as well. */
  lemma AnswerNamed(name: Bytes, port: Port, app: Bytes)
    requires |name| < 256
    ensures Answer(GREETING_REPLY + [5, 0, 0, 3, |name|] + name + port + app) == (0, 9 + |name|)
  {
    var s := GREETING_REPLY + [5, 0, 0, 3, |name|] + name + port + app;
    assert s[..5] == EXPECTED;
  }

  /** Of replies that the client takes for success it takes no less than all. */
  lemma AnswerCut(s: Bytes, k: nat)
    requires Answer(s) == (0, |s|) && k < |s|
    ensures Answer(s[..k]) == (-1, k)
  {
    if k >= 7 {
      assert s[..k][..5] == s[..5];
    }
  }

  /** The greeting and the CONNECT request. */
  function Hello(e: Endpoint): (msg: Bytes)
    requires !e.Other?
    ensures msg == Greeting([0]) + Request(1, e)
  {
    [5, 1, 0, 5, 1, 0] + FillAddrPort(e)
  }

  /** The part of a message that is on its way once send has returned `accepted`. */
  function Gone(msg: Bytes, accepted: int): (part: Bytes)
    ensures part <= msg
  {
    if accepted < 0 then [] else if accepted < |msg| then msg[..accepted] else msg
  }

  /** socks5_client_connect: `accepted` is what send returns. */
  method ClientConnect(sock: Socket, e: Endpoint, accepted: int) returns (ret: int)
    modifies sock
    ensures e.Other? ==> ret == -1 && sock.incoming == old(sock.incoming) && sock.sent == old(sock.sent)
    ensures !e.Other? ==> sock.sent == old(sock.sent) + Gone(Hello(e), accepted)
    ensures !e.Other? && accepted != |Hello(e)| ==> ret == -1 && sock.incoming == old(sock.incoming)
    ensures !e.Other? && accepted == |Hello(e)| ==> sock.sent == old(sock.sent) + Hello(e)
    ensures !e.Other? && accepted == |Hello(e)| && Broken !in old(sock.ahead) ==>
              var (code, n) := Answer(old(sock.incoming));
              ret == code && sock.incoming == old(sock.incoming)[n..]
  {
    var copied := FillAddrPort(e);
    if |copied| == 0 {
      return -1;
    }
    sock.Send([5, 1, 0, 5, 1, 0] + copied, accepted);
    if accepted != 6 + |copied| {
      return -1;
    }
    ret := AwaitAnswer(sock);
  }

  /** Reads and judges the replies to greeting and request. */
  method AwaitAnswer(sock: Socket) returns (ret: int)
    modifies sock`incoming, sock`ahead
    ensures Broken !in old(sock.ahead) ==>
              var (code, n) := Answer(old(sock.incoming));
              ret == code && sock.incoming == old(sock.incoming)[n..]
  {
    var first := sock.RecvAll(7);
    if |first| != 7 {
      return -1;
    }
    assert first == old(sock.incoming)[..7];
    assert first[..5] == old(sock.incoming)[..5];
    if first[..5] != EXPECTED {
      return if first[3] != 0 then -(first[3] as int) else -1;
    }
    var n := Remaining(first[5], first[6]);
    var rest := sock.RecvAll(n);
    return if |rest| != n then -1 else 0;
  }

  // ---------------------------------------------------------------- both sides together

  /** All the server has sent the client. */
  function Sent(log: Log): (s: Bytes) {
    if log == [] then []
    else
      var e := log[|log| - 1];
      Sent(log[..|log| - 1]) + if e.Reply? then e.bytes else []
  }

  function ConnectLog(e: Endpoint): (log: Log) {
    GREETED + [Connect(e)]
  }

  function FinalReply(cb: Callbacks, e: Endpoint): (c: Effect) {
    Reply(CreateResp(cb.address(ConnectLog(e), false)))
  }

  /** Where a request to connect leaves the server, by what its callbacks answer. */
  function Standing(cb: Callbacks, e: Endpoint): (h: Handshake)
    ensures Ready(h)
  {
    match cb.connect(ConnectLog(e))
    case StatusInProgress => Handshake(WaitConnect, 0, ConnectLog(e))
    case StatusFail => Handshake(Fail, 0, ConnectLog(e))
    case StatusOK =>
      var log := ConnectLog(e) + [FinalReply(cb, e)];
      if cb.reply(log) == StatusOK then Handshake(Success, 1, log) else Handshake(Fail, 0, log)
  }

  /** All the calls by the time the server has answered, after the connection was reported if it was
      waited for.
   */
  function Answered(cb: Callbacks, h: Handshake): (log: Log)
    requires Ready(h) && cb.hasReply
  {
    if h.state == WaitConnect then ConnectionSucceed(cb, h).0.log else h.log
  }

  /** The connecting client's bytes make the server try to connect to that same endpoint, with nothing
      left over. If the connection is made, at once or later, the client takes exactly the replies and
      succeeds, if and only if the server could tell the address of the connection and it is an IP
      address. If it is not made, there is no final reply, and the client fails.
   */
  lemma ConnectAgreement(step: Stepper, cb: Callbacks, e: Endpoint, app: Bytes)
    requires Machine(step, cb) && cb.hasConnect && !e.Other? && cb.reply(GREETED) == StatusOK
    ensures Drive(step, Init, Hello(e)) == (Standing(cb, e), |Hello(e)|)
    ensures var s := Sent(Answered(cb, Standing(cb, e)));
      if cb.connect(ConnectLog(e)) == StatusFail then Answer(s) == (-1, |s|)
      else
        && (Answer(s + app) == (0, |s|) <==> Told(cb.address(ConnectLog(e), false)))
        && (cb.address(ConnectLog(e), false).None? ==> Answer(s + app) == (-1, 7))
  {
    HelloTaken(step, cb, e);
    SentAnswered(cb, e);
    AnswerIffTold(cb.address(ConnectLog(e), false), app);
  }

  lemma HelloTaken(step: Stepper, cb: Callbacks, e: Endpoint)
    requires Machine(step, cb) && cb.hasConnect && !e.Other? && cb.reply(GREETED) == StatusOK
    ensures Drive(step, Init, Hello(e)) == (Standing(cb, e), |Hello(e)|)
  {
    var request := Request(1, e);
    GreetingAccepted(step, cb, [0], request);
    ConnectTaken(step, cb, e, request, FillAddrPort(e)[1..]);
  }

  lemma ConnectTaken(step: Stepper, cb: Callbacks, e: Endpoint, data: Bytes, addr: Bytes)
    requires Machine(step, cb) && cb.hasConnect && !e.Other?
    requires data == Request(1, e) && addr == FillAddrPort(e)[1..]
    ensures Drive(step, AfterGreeting(), data) == (Standing(cb, e), |data|)
  {
    RequestParts(e);
    RequestStep(step, cb, data);
    DriveGo(step, AfterGreeting(), data);
    AddressDriven(step, cb, e, addr);
  }

  lemma RequestParts(e: Endpoint)
    requires !e.Other?
    ensures var data := Request(1, e);
      && |data| >= 4 && data[0] == 5 && data[1] == 1 && data[2] == 0 && data[3] == (if e.V4? then 1 else 4)
      && data[4..] == FillAddrPort(e)[1..]
  {
  }

  lemma AddressDriven(step: Stepper, cb: Callbacks, e: Endpoint, addr: Bytes)
    requires Machine(step, cb) && cb.hasConnect && !e.Other? && addr == FillAddrPort(e)[1..]
    ensures Drive(step, Addressed(1, e.V4?), addr) == (Standing(cb, e), |addr|)
  {
    AddressStepTaken(step, cb, e, addr);
    if cb.connect(ConnectLog(e)) == StatusOK {
      DriveGo(step, Addressed(1, e.V4?), addr);
      assert addr[|addr|..] == [];
      ResponseTaken(step, cb, e);
    }
  }

  lemma AddressStepTaken(step: Stepper, cb: Callbacks, e: Endpoint, addr: Bytes)
    requires Machine(step, cb) && cb.hasConnect && !e.Other? && addr == FillAddrPort(e)[1..]
    ensures step(Addressed(1, e.V4?), addr) ==
            if cb.connect(ConnectLog(e)) == StatusOK then Step(Handshake(Response, 0, ConnectLog(e)), |addr|, true)
            else Step(Standing(cb, e), |addr|, false)
  {
    AddressTaken(e, addr);
    assert Agrees(step, cb, Addressed(1, e.V4?), addr);
  }

  lemma ResponseTaken(step: Stepper, cb: Callbacks, e: Endpoint)
    requires Machine(step, cb) && cb.connect(ConnectLog(e)) == StatusOK
    ensures Drive(step, Handshake(Response, 0, ConnectLog(e)), []) == (Standing(cb, e), 0)
  {
    var h := Handshake(Response, 0, ConnectLog(e));
    assert Agrees(step, cb, h, []);
    if step(h, []).go {
      DriveGo(step, h, []);
    }
  }

  lemma SentAnswered(cb: Callbacks, e: Endpoint)
    requires cb.hasReply
    ensures Sent(Answered(cb, Standing(cb, e))) ==
            if cb.connect(ConnectLog(e)) == StatusFail then GREETING_REPLY
            else GREETING_REPLY + CreateResp(cb.address(ConnectLog(e), false))
  {
    SentMore([], Reply(GREETING_REPLY));
    assert [] + GREETED == GREETED;
    SentMore(GREETED, Connect(e));
    SentReplies(Connect(e), CreateResp(cb.address(ConnectLog(e), false)));
  }

  lemma SentMore(log: Log, e: Effect)
    ensures Sent(log + [e]) == Sent(log) + if e.Reply? then e.bytes else []
  {
    assert (log + [e])[..|log|] == log;
  }

  /** A greeting, a call, and a reply to it. */
  lemma SentReplies(call: Effect, msg: Bytes)
    requires !call.Reply?
    ensures Sent(GREETED + [call] + [Reply(msg)]) == GREETING_REPLY + msg
  {
    SentMore([], Reply(GREETING_REPLY));
    assert [] + GREETED == GREETED;
    SentMore(GREETED, call);
    SentMore(GREETED + [call], Reply(msg));
  }

  predicate Told(a: Option<Endpoint>) {
    a.Some? && !a.value.Other?
  }

  lemma AnswerIffTold(a: Option<Endpoint>, app: Bytes)
    ensures var s := GREETING_REPLY + CreateResp(a);
      (Answer(s + app) == (0, |s|) <==> Told(a)) && (a.None? ==> Answer(s + app) == (-1, 7))
  {
    var s := GREETING_REPLY + CreateResp(a);
    var all := s + app;
    if a.Some? && !a.value.Other? {
      assert all[..5] == EXPECTED;
    } else if a.None? {
      assert all[..5][3] == 1;
    }
  }

  lemma AddressTaken(e: Endpoint, addr: Bytes)
    requires !e.Other? && addr == FillAddrPort(e)[1..]
    ensures e.V4? ==> addr[..4] == e.addr4 && addr[4..6] == e.port
    ensures e.V6? ==> addr[..16] == e.addr6 && addr[16..18] == e.port
  {
    assert addr == (if e.V4? then e.addr4 else e.addr6) + e.port;
  }

  // ---------------------------------------------------------------- the session pool

  /** The 13 bytes of a greeting and a BIND request for 0.0.0.0. */
  function BindHello(port: Port): (msg: Bytes)
    ensures |msg| == 13 && msg == Greeting([0]) + Request(2, V4([0, 0, 0, 0], port))
  {
    [5, 1, 0, 5, 2, 0, 1, 0, 0, 0, 0] + port
  }

  /** The bound port in the 12 bytes of the first response. */
  function FirstResponse(s: Bytes): (port: Option<Port>) {
    if |s| < 12 || s[3] != 0 then None else var port: Port := s[10..12]; Some(port)
  }

  /** The peer in the 22 bytes of the second response, taken to be an IPv6 address. */
  function SecondResponse(s: Bytes): (peer: Option<Endpoint>) {
    if |s| < 22 || s[1] != 0 then None else Some(V6(s[4..20], s[20..22]))
  }

  /** The pool's bytes make the server bind that same port, with nothing left over, and its reply
      is 12 bytes from which the pool reads the port that was bound.
   */
  lemma BindAgreement(step: Stepper, cb: Callbacks, port: Port)
    requires Machine(step, cb) && cb.reply(GREETED) == StatusOK && Bound(cb, port)
    ensures Drive(step, Init, BindHello(port)) == (Handshake(WaitAccept, 0, BoundLog(cb, port)), 13)
    ensures var s := Sent(BoundLog(cb, port));
      |s| == 12 && FirstResponse(s) == Some(cb.bind(GREETED + [Bind(port)]).1)
  {
    var e := V4([0, 0, 0, 0], port);
    GreetingAccepted(step, cb, [0], Request(2, e));
    BindTaken(step, cb, port, Request(2, e), Request(2, e)[4..]);
    SentBound(cb, port);
  }

  /** What the server has done once it bound a port. */
  function BoundLog(cb: Callbacks, port: Port): (log: Log) {
    var log := GREETED + [Bind(port)];
    log + [Reply(BindReply(cb.bind(log).1))]
  }

  predicate Bound(cb: Callbacks, port: Port) {
    cb.bind(GREETED + [Bind(port)]).0 != StatusFail && cb.reply(BoundLog(cb, port)) != StatusFail
  }

  lemma BindTaken(step: Stepper, cb: Callbacks, port: Port, data: Bytes, addr: Bytes)
    requires Machine(step, cb) && Bound(cb, port)
    requires data == Request(2, V4([0, 0, 0, 0], port)) && addr == data[4..]
    ensures Drive(step, AfterGreeting(), data) == (Handshake(WaitAccept, 0, BoundLog(cb, port)), 10)
  {
    RequestStep(step, cb, data);
    DriveGo(step, AfterGreeting(), data);
    AddressTaken(V4([0, 0, 0, 0], port), addr);
    assert Agrees(step, cb, Addressed(2, true), addr);
    assert step(Addressed(2, true), addr)
        == Step(Handshake(WaitAccept, 0, BoundLog(cb, port)), 6, false);
  }

  lemma SentBound(cb: Callbacks, port: Port)
    ensures var s := Sent(BoundLog(cb, port));
      |s| == 12 && FirstResponse(s) == Some(cb.bind(GREETED + [Bind(port)]).1)
  {
    var log := GREETED + [Bind(port)];
    SentReplies(Bind(port), BindReply(cb.bind(log).1));
    FirstRead(cb.bind(log).1);
  }

  lemma FirstRead(port: Port)
    ensures var s := GREETING_REPLY + BindReply(port); |s| == 12 && FirstResponse(s) == Some(port)
  {
    assert (GREETING_REPLY + BindReply(port))[10..12] == port;
  }

  /** The pool takes no error reply, nor a part of a reply, for a success. */
  lemma PoolRefuses(code: Byte, rest: Bytes)
    requires code > 0
    ensures FirstResponse(GREETING_REPLY + [5, code] + rest).None? && SecondResponse([5, code] + rest).None?
    ensures |rest| < 12 ==> FirstResponse(rest) == None
    ensures |rest| < 22 ==> SecondResponse(rest) == None
  {
  }

  /** The pool reads the second response exactly, and the right peer from it, if and only if the
      peer has an IPv6 address.
   */
  lemma SecondAgreement(a: Option<Endpoint>, app: Bytes)
    ensures |CreateResp(a)| == 22 && SecondResponse(CreateResp(a) + app) == a <==> a.Some? && a.value.V6?
    ensures a.None? ==> SecondResponse(CreateResp(a) + app) == None
  {
    if a.Some? && a.value.V6? {
      SecondRead(a.value, app);
    } else if a.None? {
      assert (CreateResp(a) + app)[1] == 1;
    }
  }

  lemma SecondRead(e: Endpoint, app: Bytes)
    requires e.V6?
    ensures SecondResponse(CreateResp(Some(e)) + app) == Some(e)
  {
    var s := CreateResp(Some(e)) + app;
    assert s == [5, 0, 0, 4] + (e.addr6 + (e.port + app));
    assert s[4..20] == e.addr6 && s[20..22] == e.port;
  }
}
