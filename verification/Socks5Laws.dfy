/** What every SOCKS5 handshake keeps to, and which client messages it accepts. */
module Socks5Laws {
  import opened Common
  import opened Socks5
  import opened Driver

  // ---------------------------------------------------------------- every run

  /** What happens to a handshake: the client sends something, or the destination is connected. */
  datatype Event = Data(bytes: Bytes) | Connected

  function Happen(step: Stepper, cb: Callbacks, s: Outcome, e: Event): (r: Outcome)
    requires Machine(step, cb) && Ready(s.h)
    ensures Ready(r.h)
  {
    match e
    case Data(bytes) =>
      var (h, n) := Drive(step, s.h, s.left + bytes);
      Outcome(h, (s.left + bytes)[n..])
    case Connected => Outcome(ConnectionSucceed(cb, s.h).0, s.left)
  }

  function Run(step: Stepper, cb: Callbacks, s: Outcome, events: seq<Event>): (r: Outcome)
    requires Machine(step, cb) && Ready(s.h)
    ensures Ready(r.h)
  {
    if events == [] then s
    else
      var n := |events| - 1;
      Happen(step, cb, Run(step, cb, s, events[..n]), events[n])
  }

  /** Section 6 of RFC 1928: version, reply code, a zero, address type, address, port. */
  function Spoken(code: Byte, e: Endpoint): (msg: Bytes) {
    [5, code, 0] + FillAddrPort(e)
  }

  /** 0.0.0.0 */
  function Anywhere(port: Port): (e: Endpoint) {
    V4([0, 0, 0, 0], port)
  }

  /** All replies to requests are of that form. */
  lemma RepliesSpoken(port: Port, a: Option<Endpoint>)
    ensures BindReply(port) == Spoken(0, Anywhere(port)) == CreateResp(Some(Anywhere(port)))
    ensures CreateResp(a) == if a.Some? then Spoken(0, a.value) else Spoken(1, Anywhere([0, 0]))
  {
  }

  /** The calls a handshake may make, in order: the greeting's reply; then a connection and the
      final reply, or a binding, its reply and the final reply.
   */
  ghost predicate Legal(cb: Callbacks, log: Log) {
    && (|log| > 0 ==> log[0] == Reply([5, 0]))
    && (|log| > 1 ==>
          match log[1]
          case Connect(_) => |log| <= 3 && (|log| > 2 ==> Final(cb, log[..2], log[2], false))
          case Bind(_) =>
            && |log| <= 4 && (|log| > 2 ==> log[2] == Reply(Spoken(0, Anywhere(cb.bind(log[..2]).1))))
            && (|log| > 3 ==> Final(cb, log[..3], log[3], true))
          case Reply(_) => |log| == 2 && !cb.hasConnect && Final(cb, log[..1], log[1], false))
  }

  ghost predicate Final(cb: Callbacks, log: Log, e: Effect, remote: bool) {
    match cb.address(log, remote)
    case Some(a) => e == Reply(Spoken(0, a))
    case None => e == Reply(Spoken(1, Anywhere([0, 0])))
  }

  /** The connection was made at once, so the handshake itself sent the final reply. */
  ghost predicate AtOnce(cb: Callbacks, log: Log) {
    |log| == 3 && log[1].Connect? && cb.connect(log[..2]) == StatusOK
  }

  /** Where in that order each state stands, and what the callbacks must have answered. For a success
      that includes the final reply if the connection was made at once, but not if it was waited for.
   */
  ghost predicate InOrder(cb: Callbacks, h: Handshake) {
    && Legal(cb, h.log)
    && match h.state
       case GreetingHeader => |h.log| == 0
       case GreetingMethods => |h.log| == 0
       case WaitConnect =>
         if cb.hasConnect then |h.log| == 2 && h.log[1].Connect? && cb.connect(h.log) == StatusInProgress
         else |h.log| == 1
       case Response => |h.log| == 2 && h.log[1].Connect? && cb.connect(h.log) == StatusOK
       case WaitAccept =>
         && |h.log| == 3 && h.log[1].Bind? && cb.bind(h.log[..2]).0 != StatusFail && cb.reply(h.log) != StatusFail
       case Success =>
         && |h.log| >= 2 && h.log[|h.log| - 1].Reply?
         && (AtOnce(cb, h.log) ==> cb.reply(h.log) == StatusOK)
         && (h.log[1].Bind? ==>
               |h.log| == 4 && cb.bind(h.log[..2]).0 != StatusFail && cb.reply(h.log[..3]) != StatusFail)
         && (h.log[1].Connect? ==> |h.log| == 3 && cb.connect(h.log[..2]) != StatusFail)
       case Fail => true
       case _ => |h.log| == 1 && cb.reply(h.log) == StatusOK
  }

  lemma ProceedInOrder(cb: Callbacks, h: Handshake, data: Bytes)
    requires Ready(h) && cb.hasReply && InOrder(cb, h)
    ensures InOrder(cb, Proceed(cb, h, data).next)
  {
    if |data| >= h.required {
      if h.state == RequestBind {
        BindInOrder(cb, h, data[h.required - 2..h.required]);
      } else if h.state == Response {
        ResponseInOrder(cb, h, data);
      } else {
        assert h.log == [] ==> h.log + GREETED == GREETED;
        assert Proceed(cb, h, data).next.log[..|h.log|] == h.log;
      }
    }
  }

  lemma BindInOrder(cb: Callbacks, h: Handshake, port: Port)
    requires cb.hasReply && InOrder(cb, h) && h.state == RequestBind
    ensures InOrder(cb, StartBind(cb, h, port).next)
  {
    var log := h.log + [Bind(port)];
    RepliesSpoken(cb.bind(log).1, None);
    assert StartBind(cb, h, port).next.log[..2] == log;
  }

  lemma ResponseInOrder(cb: Callbacks, h: Handshake, data: Bytes)
    requires Ready(h) && cb.hasReply && InOrder(cb, h) && h.state == Response
    ensures InOrder(cb, Proceed(cb, h, data).next)
  {
    RepliesSpoken([0, 0], cb.address(h.log, false));
    assert Proceed(cb, h, data).next.log[..2] == h.log;
  }

  lemma {:induction false} DriveInOrder(step: Stepper, cb: Callbacks, h: Handshake, data: Bytes)
    requires Machine(step, cb) && Ready(h) && InOrder(cb, h)
    ensures InOrder(cb, Drive(step, h, data).0)
    decreases Rank(h.state)
  {
    if h.state != Success {
      ProceedInOrder(cb, h, data);
      assert Agrees(step, cb, h, data);
      var s := step(h, data);
      if s.go {
        DriveInOrder(step, cb, s.next, data[s.used..]);
      }
    }
  }

  lemma {:induction false} RunInOrder(step: Stepper, cb: Callbacks, events: seq<Event>)
    requires Machine(step, cb)
    ensures InOrder(cb, Run(step, cb, Outcome(Init, []), events).h)
  {
    if events != [] {
      var n := |events| - 1;
      RunInOrder(step, cb, events[..n]);
      var s := Run(step, cb, Outcome(Init, []), events[..n]);
      match events[n]
      case Data(bytes) => DriveInOrder(step, cb, s.h, s.left + bytes);
      case Connected => ConnectedInOrder(cb, s.h);
    }
  }

  lemma ConnectedInOrder(cb: Callbacks, h: Handshake)
    requires Ready(h) && cb.hasReply && InOrder(cb, h)
    ensures InOrder(cb, ConnectionSucceed(cb, h).0)
  {
    var log := ConnectionSucceed(cb, h).0.log;
    assert log[..|h.log|] == h.log;
    RepliesSpoken([0, 0], cb.address(h.log, h.state == WaitAccept));
    if h.state == WaitAccept {
      assert log[..2] == h.log[..2] && log[..3] == h.log;
    }
  }

  /** In every run the calls come in the legal order, so the destination is connected to, or a port
      bound, at most once.
   */
  lemma RunLegal(step: Stepper, cb: Callbacks, events: seq<Event>)
    requires Machine(step, cb)
    ensures Legal(cb, Run(step, cb, Outcome(Init, []), events).h.log)
    ensures AtMostOnce(Run(step, cb, Outcome(Init, []), events).h.log)
  {
    RunInOrder(step, cb, events);
    LegalOnce(cb, Run(step, cb, Outcome(Init, []), events).h.log);
  }

  ghost predicate AtMostOnce(log: Log) {
    forall i, j :: 0 <= i < j < |log| && !log[i].Reply? ==> log[j].Reply?
  }

  lemma LegalOnce(cb: Callbacks, log: Log)
    requires Legal(cb, log)
    ensures AtMostOnce(log)
  {
  }

  /** A failed handshake does nothing any more. */
  lemma {:induction false} RunFailed(step: Stepper, cb: Callbacks, s: Outcome, events: seq<Event>)
    requires Machine(step, cb) && Ready(s.h) && s.h.state == Fail
    ensures Run(step, cb, s, events).h.state == Fail && Run(step, cb, s, events).h.log == s.h.log
  {
    if events != [] {
      RunFailed(step, cb, s, events[..|events| - 1]);
    }
  }

  // ---------------------------------------------------------------- the client's messages

  /** Section 3 of RFC 1928: version, number of methods, methods; 0 is "no authentication". */
  predicate Offer(methods: Bytes) {
    1 <= |methods| <= 255 && 0 in methods
  }

  function Greeting(methods: Bytes): (msg: Bytes)
    requires Offer(methods)
    ensures |msg| == 2 + |methods|
  {
    [5, |methods|] + methods
  }

  /** Section 4 of RFC 1928: version, command, a zero, address type, address, port. */
  function Request(cmd: int, e: Endpoint): (msg: Bytes)
    requires 1 <= cmd <= 2
  {
    [5, cmd, 0] + FillAddrPort(e)
  }

  function Asked(cmd: int, e: Endpoint): (c: Effect)
    requires 1 <= cmd <= 2 && !e.Other?
  {
    if cmd == 1 then Connect(e) else Bind(e.port)
  }

  const GREETED: Log := [Reply(GREETING_REPLY)]

  function AfterGreeting(): (h: Handshake) { Handshake(RequestHeader, 4, GREETED) }

  /** A greeting is accepted, and nothing else is. */
  lemma GreetingAccepted(step: Stepper, cb: Callbacks, methods: Bytes, rest: Bytes)
    requires Machine(step, cb) && cb.reply(GREETED) == StatusOK && Offer(methods)
    ensures var r := Drive(step, AfterGreeting(), rest);
      Drive(step, Init, Greeting(methods) + rest) == (r.0, |methods| + 2 + r.1)
  {
    var data, left := Greeting(methods) + rest, methods + rest;
    HeaderStep(step, cb, data);
    DriveGo(step, Init, data);
    assert data[2..] == left;
    assert left[..|methods|] == methods && left[|methods|..] == rest;
    MethodsStep(step, cb, |methods|, left);
    DriveGo(step, Handshake(GreetingMethods, |methods|, []), left);
  }

  lemma GreetingNeeded(step: Stepper, cb: Callbacks, data: Bytes) returns (methods: Bytes, rest: Bytes)
    requires Machine(step, cb) && |Drive(step, Init, data).0.log| >= 2
    ensures Offer(methods) && data == Greeting(methods) + rest
  {
    HeaderStep(step, cb, data);
    GoNeeded(step, Init, data);
    var n, left := data[1], data[2..];
    MethodsStep(step, cb, n, left);
    GoNeeded(step, Handshake(GreetingMethods, n, []), left);
    methods, rest := left[..n], left[n..];
    assert data == [5, n] + (methods + rest);
  }

  lemma HeaderStep(step: Stepper, cb: Callbacks, data: Bytes)
    requires Machine(step, cb)
    ensures step(Init, data).next.log == []
    ensures if |data| >= 2 && data[0] == 5 && data[1] > 0
            then step(Init, data) == Step(Handshake(GreetingMethods, data[1], []), 2, true)
            else !step(Init, data).go
  {
    assert Agrees(step, cb, Init, data);
  }

  lemma MethodsStep(step: Stepper, cb: Callbacks, n: nat, data: Bytes)
    requires Machine(step, cb) && 1 <= n <= 255
    ensures var s := step(Handshake(GreetingMethods, n, []), data);
      && |s.next.log| <= 1
      && if |data| >= n && 0 in data[..n] && cb.reply(GREETED) == StatusOK
         then s == Step(AfterGreeting(), n, true)
         else !s.go
  {
    assert [] + GREETED == GREETED;
    assert Agrees(step, cb, Handshake(GreetingMethods, n, []), data);
  }

  /** Where a request header leads. */
  function Addressed(cmd: int, v4: bool): (h: Handshake)
    requires 1 <= cmd <= 2
    ensures Ready(h)
  {
    var state := if cmd == 2 then RequestBind else if v4 then RequestAddrV4 else RequestAddrV6;
    Handshake(state, if v4 then 6 else 18, GREETED)
  }

  lemma RequestStep(step: Stepper, cb: Callbacks, data: Bytes)
    requires Machine(step, cb)
    ensures step(AfterGreeting(), data).next.log == GREETED
    ensures if |data| >= 4 && data[0] == 5 && 1 <= data[1] <= 2 && data[2] == 0 && (data[3] == 1 || data[3] == 4)
            then step(AfterGreeting(), data) == Step(Addressed(data[1], data[3] == 1), 4, true)
            else !step(AfterGreeting(), data).go
  {
    assert Agrees(step, cb, AfterGreeting(), data);
  }

  /** The endpoint that the first n bytes tell. */
  function Parsed(data: Bytes, n: nat): (e: Endpoint)
    requires (n == 6 || n == 18) && |data| >= n
    ensures !e.Other? && FillAddrPort(e)[1..] == data[..n]
  {
    assert data[..n] == data[..n - 2] + data[n - 2..n];
    if n == 6 then V4(data[..4], data[4..6]) else V6(data[..16], data[16..18])
  }

  /** Where a call leaves the handshake, by what the callbacks answer. */
  ghost function Reached(cb: Callbacks, c: Effect): (s: State) {
    var log := GREETED + [c];
    if c.Bind? then
      var (status, port) := cb.bind(log);
      if status == StatusFail || cb.reply(log + [Reply(BindReply(port))]) == StatusFail then Fail else WaitAccept
    else
      match cb.connect(log)
      case StatusFail => Fail
      case StatusInProgress => WaitConnect
      case StatusOK => if cb.reply(log + [Reply(CreateResp(cb.address(log, false)))]) == StatusOK then Success else Fail
  }

  /** Once the address is complete, exactly the connection or the binding asked for is made. */
  lemma AddressStep(step: Stepper, cb: Callbacks, cmd: int, v4: bool, data: Bytes)
    requires Machine(step, cb) && cb.hasConnect && 1 <= cmd <= 2 && |data| >= if v4 then 6 else 18
    ensures var n := if v4 then 6 else 18; var r := Drive(step, Addressed(cmd, v4), data);
      && r.1 == n && |r.0.log| >= 2 && r.0.log[1] == Asked(cmd, Parsed(data, n))
      && r.0.state == Reached(cb, Asked(cmd, Parsed(data, n)))
  {
    var h := Addressed(cmd, v4);
    assert Agrees(step, cb, h, data);
    var s := step(h, data);
    if s.go {
      DriveGo(step, h, data);
      ReplyStep(step, cb, s.next, data[s.used..]);
    }
  }

  lemma ReplyStep(step: Stepper, cb: Callbacks, h: Handshake, data: Bytes)
    requires Machine(step, cb) && Ready(h) && h.state == Response
    ensures Drive(step, h, data).1 == 0 && h.log <= Drive(step, h, data).0.log
    ensures Drive(step, h, data).0.state ==
            if cb.reply(h.log + [Reply(CreateResp(cb.address(h.log, false)))]) == StatusOK then Success else Fail
  {
    assert Agrees(step, cb, h, data);
    if step(h, data).go {
      DriveGo(step, h, data);
    }
  }

  lemma RequestAccepted(step: Stepper, cb: Callbacks, cmd: int, e: Endpoint, rest: Bytes)
    requires Machine(step, cb) && cb.hasConnect && 1 <= cmd <= 2 && !e.Other?
    ensures var r := Drive(step, AfterGreeting(), Request(cmd, e) + rest);
      && r.1 == |Request(cmd, e)| && |r.0.log| >= 2 && r.0.log[1] == Asked(cmd, e)
      && r.0.state == Reached(cb, Asked(cmd, e))
  {
    var data, left := Request(cmd, e) + rest, FillAddrPort(e)[1..] + rest;
    RequestStep(step, cb, data);
    assert data[4..] == left;
    DriveGo(step, AfterGreeting(), data);
    AddressStep(step, cb, cmd, e.V4?, left);
    ParsedBack(e, rest);
  }

  lemma ParsedBack(e: Endpoint, rest: Bytes)
    requires !e.Other?
    ensures Parsed(FillAddrPort(e)[1..] + rest, if e.V4? then 6 else 18) == e
  {
    var left := FillAddrPort(e)[1..] + rest;
    assert left == (if e.V4? then e.addr4 else e.addr6) + e.port + rest;
  }

  lemma RequestNeeded(step: Stepper, cb: Callbacks, data: Bytes) returns (cmd: int, e: Endpoint, rest: Bytes)
    requires Machine(step, cb) && |Drive(step, AfterGreeting(), data).0.log| >= 2
    ensures 1 <= cmd <= 2 && !e.Other? && data == Request(cmd, e) + rest
  {
    RequestStep(step, cb, data);
    GoNeeded(step, AfterGreeting(), data);
    var left, n := data[4..], if data[3] == 1 then 6 else 18;
    if |left| < n {
      DriveHalted(step, Addressed(data[1], data[3] == 1), left);
    }
    cmd := data[1];
    e, rest := Respelt(data, n);
  }

  lemma Respelt(data: Bytes, n: nat) returns (e: Endpoint, rest: Bytes)
    requires (n == 6 || n == 18) && |data| >= 4 + n && data[0] == 5 && 1 <= data[1] <= 2 && data[2] == 0
    requires data[3] == if n == 6 then 1 else 4
    ensures !e.Other? && data == Request(data[1], e) + rest
  {
    var left := data[4..];
    e, rest := Parsed(left, n), left[n..];
    assert FillAddrPort(e) == [data[3]] + left[..n];
    assert data == data[..4] + (left[..n] + rest);
  }

  /** `data` starts with a greeting and a request, in the words of RFC 1928. */
  ghost predicate Spells(data: Bytes, methods: Bytes, cmd: int, e: Endpoint, rest: Bytes) {
    && Offer(methods) && 1 <= cmd <= 2 && !e.Other?
    && data == Greeting(methods) + (Request(cmd, e) + rest)
  }

  /** A call other than a reply is made if and only if the client's bytes start with a greeting and
      a request for it; the handshake takes exactly those two messages, and stands where the
      callbacks' answers lead.
   */
  lemma CallIffAsked(step: Stepper, cb: Callbacks, data: Bytes, c: Effect)
    requires Machine(step, cb) && cb.hasConnect && cb.reply(GREETED) == StatusOK
    ensures var r := Drive(step, Init, data);
      && (|r.0.log| >= 2 && r.0.log[1] == c <==>
          exists m, cmd, e, rest :: Spells(data, m, cmd, e, rest) && c == Asked(cmd, e))
      && (|r.0.log| >= 2 && r.0.log[1] == c ==> r.0.state == Reached(cb, c))
      && forall m, cmd, e, rest :: Spells(data, m, cmd, e, rest) ==> data[r.1..] == rest
  {
    var r := Drive(step, Init, data);
    forall m, cmd, e, rest | Spells(data, m, cmd, e, rest)
      ensures data[r.1..] == rest && |r.0.log| >= 2 && r.0.log[1] == Asked(cmd, e)
              && r.0.state == Reached(cb, Asked(cmd, e))
    {
      SpeltAccepted(step, cb, data, m, cmd, e, rest);
    }
    if |r.0.log| >= 2 && r.0.log[1] == c {
      var m, left := GreetingNeeded(step, cb, data);
      GreetingAccepted(step, cb, m, left);
      var cmd, e, rest := RequestNeeded(step, cb, left);
      assert Spells(data, m, cmd, e, rest);
    }
  }

  lemma SpeltAccepted(step: Stepper, cb: Callbacks, data: Bytes, m: Bytes, cmd: int, e: Endpoint, rest: Bytes)
    requires Machine(step, cb) && cb.hasConnect && cb.reply(GREETED) == StatusOK && Spells(data, m, cmd, e, rest)
    ensures var r := Drive(step, Init, data);
      data[r.1..] == rest && |r.0.log| >= 2 && r.0.log[1] == Asked(cmd, e) && r.0.state == Reached(cb, Asked(cmd, e))
  {
    GreetingAccepted(step, cb, m, Request(cmd, e) + rest);
    RequestAccepted(step, cb, cmd, e, rest);
  }

  /** Whenever a connection is waited for and then reported, the handshake succeeds, whatever the
      callback answers to the final reply.
   */
  lemma WaitingSucceeds(step: Stepper, cb: Callbacks, data: Bytes, m: Bytes, cmd: int, e: Endpoint, rest: Bytes)
    requires Machine(step, cb) && cb.hasConnect && cb.reply(GREETED) == StatusOK && Spells(data, m, cmd, e, rest)
    requires Reached(cb, Asked(cmd, e)) == WaitConnect || Reached(cb, Asked(cmd, e)) == WaitAccept
    ensures var r := Run(step, cb, Outcome(Init, []), [Data(data), Connected]);
      r.h.state == Success && |r.h.log| >= 3 && r.h.log[1] == Asked(cmd, e) && r.left == rest
  {
    SpeltAccepted(step, cb, data, m, cmd, e, rest);
    var events := [Data(data), Connected];
    var start := Outcome(Init, []);
    assert events[..1] == [Data(data)] && [Data(data)][..0] == [];
    assert start.left + data == data;
    assert Run(step, cb, start, []) == start;
    assert Run(step, cb, start, [Data(data)]) == Happen(step, cb, start, Data(data));
  }

  /** Such handshakes, which succeed though their final reply failed. */
  lemma SuccessUnsent(cmd: int) returns (cb: Callbacks, events: seq<Event>)
    requires 1 <= cmd <= 2
    ensures cb.hasReply
    ensures var h := Run(Stepping(cb), cb, Outcome(Init, []), events).h;
      h.state == Success && cb.reply(h.log) == StatusFail && |h.log| > 1 && h.log[1].Connect? == (cmd == 1)
  {
    cb := Callbacks(
      true, (log: Log) => if |log| == cmd + 2 then StatusFail else StatusOK,
      true, (log: Log) => StatusInProgress,
      (log: Log) => (StatusOK, [0, 0]),
      (log: Log, remote: bool) => None);
    var to := V4([0, 0, 0, 0], [0, 0]);
    var data := Greeting([0]) + (Request(cmd, to) + []);
    events := [Data(data), Connected];
    assert Spells(data, [0], cmd, to, []);
    WaitingSucceeds(Stepping(cb), cb, data, [0], cmd, to, []);
    RunInOrder(Stepping(cb), cb, events);
  }
}
