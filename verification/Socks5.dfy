/** The SOCKS5 handshake of src/aws/proxy/socks5_state.cc as a pure step function.

    What the callbacks do is not known here. They are arbitrary functions of everything the state
    machine has done so far, its log.
 */
module Socks5 {
  import opened Common

  type Bytes = seq<Byte>
  type Quad = b: Bytes | |b| == 4 witness [0, 0, 0, 0]
  type Hexa = b: Bytes | |b| == 16 witness seq(16, _ => 0)
  type Port = b: Bytes | |b| == 2 witness [0, 0]  // in network byte order

  /** A socket address, by family. */
  datatype Endpoint = V4(addr4: Quad, port: Port) | V6(addr6: Hexa, port: Port) | Other

  datatype State =
    | GreetingHeader | GreetingMethods | RequestHeader | RequestAddrV4 | RequestAddrV6
    | RequestBind | WaitConnect | WaitAccept | Response | Success | Fail

  /** What a callback returns. */
  datatype Status = StatusOK | StatusInProgress | StatusFail

  /** A call of a callback. */
  datatype Effect = Reply(bytes: Bytes) | Connect(to: Endpoint) | Bind(port: Port)

  type Log = seq<Effect>

  datatype Callbacks = Callbacks(
    hasReply: bool, reply: Log -> Status,
    hasConnect: bool, connect: Log -> Status,
    bind: Log -> (Status, Port),              // also the port that was bound
    address: (Log, bool) -> Option<Endpoint>  // None if it fails or is missing
  )

  datatype Handshake = Handshake(state: State, required: nat, log: Log)

  const Init := Handshake(GreetingHeader, 2, [])

  /** The outcome of one Proceed: the new state, how much of the data was taken, the result. */
  datatype Step = Step(next: Handshake, used: nat, go: bool)

  const GREETING_REPLY: Bytes := [5, 0]
  const ERROR_REPLY: Bytes := [5, 1, 0, 1, 0, 0, 0, 0, 0, 0]

  /** ATYP, address and port; nothing for a family that has no ATYP. */
  function FillAddrPort(e: Endpoint): (msg: Bytes)
    ensures |msg| == if e.V4? then 7 else if e.V6? then 19 else 0
  {
    match e
    case V4(addr, port) => [1] + addr + port
    case V6(addr, port) => [4] + addr + port
    case Other => []
  }

  function CreateResp(address: Option<Endpoint>): (msg: Bytes) {
    match address
    case Some(e) => [5, 0, 0] + FillAddrPort(e)
    case None => ERROR_REPLY
  }

  function BindReply(port: Port): (msg: Bytes)
    ensures |msg| == 10
  {
    [5, 0, 0, 1, 0, 0, 0, 0] + port
  }

  /** In each state, the amount of data the next step takes. */
  predicate Ready(h: Handshake) {
    match h.state
    case GreetingHeader => h.required == 2
    case GreetingMethods => 1 <= h.required <= 255
    case RequestHeader => h.required == 4
    case RequestAddrV4 => h.required == 6
    case RequestAddrV6 => h.required == 18
    case RequestBind => h.required == 6 || h.required == 18
    case WaitConnect => h.required == 0
    case WaitAccept => h.required == 0
    case Response => h.required == 0
    case Success => h.required <= 1
    case Fail => true
  }

  predicate TakesData(s: State) {
    match s
    case WaitConnect => false
    case WaitAccept => false
    case Response => false
    case Success => false
    case Fail => false
    case _ => true
  }

  /** How many more steps there can be. */
  function Rank(s: State): (n: nat) {
    match s
    case GreetingHeader => 5
    case GreetingMethods => 4
    case RequestHeader => 3
    case RequestAddrV4 => 2
    case RequestAddrV6 => 2
    case RequestBind => 2
    case Response => 1
    case _ => 0
  }

  function Failing(h: Handshake): (f: Handshake) {
    h.(state := Fail)
  }

  /** One transition. The response callback may be missing only while the greeting is handled. */
  function Proceed(cb: Callbacks, h: Handshake, data: Bytes): (r: Step)
    requires Ready(h) && (h.state == RequestBind || h.state == Response ==> cb.hasReply)
    ensures Ready(r.next) && r.used <= |data|
    ensures |data| < h.required ==> r == Step(h, 0, false)
    ensures |data| >= h.required ==> r.used == if TakesData(h.state) then h.required else 0
    ensures r.go ==> Rank(r.next.state) < Rank(h.state) && r.next.state != Fail
    ensures h.state == Fail ==> r.next.state == Fail && r.next.log == h.log
    ensures h.log <= r.next.log
  {
    if |data| < h.required then Step(h, 0, false)
    else
      match h.state
      case GreetingHeader =>
        if data[0] != 5 || data[1] == 0 then Step(Failing(h), 2, false)
        else Step(Handshake(GreetingMethods, data[1], h.log), 2, true)
      case GreetingMethods => ReadMethods(cb, h, data[..h.required])
      case RequestHeader => ReadRequest(h, data[..4])
      case RequestAddrV4 => StartConnect(cb, h, V4(data[..4], data[4..6]), 6)
      case RequestAddrV6 => StartConnect(cb, h, V6(data[..16], data[16..18]), 18)
      case RequestBind => StartBind(cb, h, data[h.required - 2..h.required])
      case Response =>
        var log := h.log + [Reply(CreateResp(cb.address(h.log, false)))];
        if cb.reply(log) != StatusOK then Step(Failing(h).(log := log), 0, false)
        else Step(Handshake(Success, 1, log), 0, true)
      case Fail => Step(h.(required := 0), 0, false)
      case _ => Step(h, 0, false)
  }

  function ReadMethods(cb: Callbacks, h: Handshake, methods: Bytes): (r: Step)
    requires h.required == |methods|
    ensures r.used == h.required && h.log <= r.next.log
    ensures if r.go then r.next.state == RequestHeader && r.next.required == 4 else r.next.state == Fail
  {
    if 0 !in methods then Step(Failing(h), |methods|, false)
    else if !cb.hasReply then Step(Handshake(RequestHeader, 4, h.log), |methods|, true)
    else
      var log := h.log + [Reply(GREETING_REPLY)];
      if cb.reply(log) != StatusOK then Step(Failing(h).(log := log), |methods|, false)
      else Step(Handshake(RequestHeader, 4, log), |methods|, true)
  }

  function ReadRequest(h: Handshake, head: Bytes): (r: Step)
    requires |head| == 4
    ensures r.used == 4 && r.next.log == h.log
    ensures r.go ==> r.next.state in {RequestAddrV4, RequestAddrV6, RequestBind} && Ready(r.next)
    ensures !r.go ==> r.next.state == Fail
  {
    if head[0] != 5 || head[2] != 0 || (head[1] != 1 && head[1] != 2) || (head[3] != 1 && head[3] != 4) then
      Step(Failing(h), 4, false)
    else
      var size := if head[3] == 1 then 6 else 18;
      var state := if head[1] == 2 then RequestBind else if head[3] == 1 then RequestAddrV4 else RequestAddrV6;
      Step(Handshake(state, size, h.log), 4, true)
  }

  function StartBind(cb: Callbacks, h: Handshake, port: Port): (r: Step)
    ensures !r.go && r.used == h.required && r.next.required == 0 && h.log <= r.next.log
    ensures r.next.state == WaitAccept || r.next.state == Fail
  {
    var log := h.log + [Bind(port)];
    var (status, bound) := cb.bind(log);
    if status == StatusFail then Step(Handshake(Fail, 0, log), h.required, false)
    else
      var log := log + [Reply(BindReply(bound))];
      Step(Handshake(if cb.reply(log) == StatusFail then Fail else WaitAccept, 0, log), h.required, false)
  }

  function StartConnect(cb: Callbacks, h: Handshake, to: Endpoint, n: nat): (r: Step)
    ensures r.next.required == 0 && r.used == n && h.log <= r.next.log
    ensures r.next.state in {WaitConnect, Response, Fail} && (r.go ==> r.next.state != Fail)
  {
    if !cb.hasConnect then Step(Handshake(WaitConnect, 0, h.log), n, true)
    else
      var log := h.log + [Connect(to)];
      match cb.connect(log)
      case StatusOK => Step(Handshake(Response, 0, log), n, true)
      case StatusInProgress => Step(Handshake(WaitConnect, 0, log), n, false)
      case StatusFail => Step(Handshake(Fail, 0, log), n, false)
  }

  /** The application reports that the connection stands. The state becomes Success even if the
      final reply could not be sent.
   */
  function ConnectionSucceed(cb: Callbacks, h: Handshake): (r: (Handshake, bool))
    requires Ready(h) && cb.hasReply
    ensures Ready(r.0) && h.log <= r.0.log && r.1 == (r.0.state == Success)
    ensures r.1 <==> h.state == WaitConnect || h.state == WaitAccept
    ensures if r.1 then
              && r.0.log == h.log + [Reply(CreateResp(cb.address(h.log, h.state == WaitAccept)))]
            else r.0.state == Fail && r.0.log == h.log
  {
    if h.state != WaitConnect && h.state != WaitAccept then (Failing(h), false)
    else
      var log := h.log + [Reply(CreateResp(cb.address(h.log, h.state == WaitAccept)))];
      (Handshake(Success, h.required, log), true)
  }

  // ---------------------------------------------------------------- steps in general

  /** Nothing more happens without more data, if at all. */
  predicate Halted(h: Handshake, left: int) {
    left < h.required || (!TakesData(h.state) && h.state != Response)
  }

  /** Failed states are compared without `required`, which only a further call resets. */
  predicate Same(g: Handshake, h: Handshake) {
    g.state == h.state && g.log == h.log && (g.state != Fail ==> g.required == h.required)
  }

  /** What a driver can rely on in a step. */
  predicate Regular(h: Handshake, data: Bytes, s: Step) {
    && Ready(s.next) && s.used <= |data|
    && (if s.go then Rank(s.next.state) < Rank(h.state) else Halted(s.next, |data| - s.used))
    && (|data| < h.required ==> s == Step(h, 0, false))
    && (Halted(h, |data|) ==> !s.go && s.used == 0 && Same(s.next, h))
  }

  lemma ProceedRegular(cb: Callbacks, h: Handshake, data: Bytes)
    requires Ready(h) && cb.hasReply
    ensures Regular(h, data, Proceed(cb, h, data))
  {
  }

  /** A step that had enough data does the same when more follows. */
  lemma ProceedMore(cb: Callbacks, h: Handshake, data: Bytes, more: Bytes)
    requires Ready(h) && cb.hasReply && |data| >= h.required
    ensures Proceed(cb, h, data + more) == Proceed(cb, h, data)
  {
    var all := data + more;
    var n := h.required;
    assert all[..n] == data[..n];
    if h.state == RequestAddrV4 {
      assert all[..4] == data[..4] && all[4..6] == data[4..6];
    } else if h.state == RequestAddrV6 {
      assert all[..16] == data[..16] && all[16..18] == data[16..18];
    } else if h.state == RequestBind {
      assert all[n - 2..n] == data[n - 2..n];
    }
  }

  /** The step function as a value, so that the driver's laws need not look inside. */
  type Stepper = (Handshake, Bytes) -> Step

  ghost predicate Sound(step: Stepper) {
    && (forall h, data {:trigger step(h, data)} :: Ready(h) ==> Regular(h, data, step(h, data)))
    && (forall h, data, more {:trigger step(h, data + more)} ::
          Ready(h) && |data| >= h.required ==> step(h, data + more) == step(h, data))
  }

  /** `step` is Proceed with the callbacks `cb`. */
  ghost predicate Machine(step: Stepper, cb: Callbacks) {
    && cb.hasReply && Sound(step)
    && forall h, data {:trigger Agrees(step, cb, h, data)} :: Ready(h) ==> Agrees(step, cb, h, data)
  }

  ghost predicate Agrees(step: Stepper, cb: Callbacks, h: Handshake, data: Bytes)
    requires Ready(h) && cb.hasReply
  {
    step(h, data) == Proceed(cb, h, data)
  }

  function Stepping(cb: Callbacks): (step: Stepper)
    requires cb.hasReply
    ensures Machine(step, cb)
  {
    var step := (h: Handshake, data: Bytes) => if Ready(h) then Proceed(cb, h, data) else Step(h, 0, false);
    assert forall h, data {:trigger Agrees(step, cb, h, data)} :: Ready(h) ==> Agrees(step, cb, h, data);
    assert Sound(step) by { SteppingSound(cb, step); }
    step
  }

  lemma SteppingSound(cb: Callbacks, step: Stepper)
    requires cb.hasReply
    requires forall h, data {:trigger Agrees(step, cb, h, data)} :: Ready(h) ==> Agrees(step, cb, h, data)
    ensures Sound(step)
  {
    forall h, data | Ready(h)
      ensures Regular(h, data, step(h, data))
    {
      ProceedRegular(cb, h, data);
      assert Agrees(step, cb, h, data);
    }
    forall h, data, more {:trigger step(h, data + more)} | Ready(h) && |data| >= h.required
      ensures step(h, data + more) == step(h, data)
    {
      ProceedMore(cb, h, data, more);
      assert Agrees(step, cb, h, data) && Agrees(step, cb, h, data + more);
    }
  }
}
