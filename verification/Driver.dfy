/** The loop of Socks5HandshakeHandler in src/aws/proxy/proxy_bridge.cc, which runs the handshake
    over whatever data has arrived. How the data arrives makes no difference.
 */
module Driver {
  import opened Socks5

  /** The loop over the buffered data: where it ends, and how much of the data it takes. */
  function Drive(step: Stepper, h: Handshake, data: Bytes): (r: (Handshake, nat))
    requires Sound(step) && Ready(h)
    ensures Ready(r.0) && r.1 <= |data| && Halted(r.0, |data| - r.1)
    decreases Rank(h.state)
  {
    if h.state == Success then (h, 0)
    else
      var s := step(h, data);
      if s.go then
        var (end, n) := Drive(step, s.next, data[s.used..]);
        (end, s.used + n)
      else (s.next, s.used)
  }

  lemma DriveGo(step: Stepper, h: Handshake, data: Bytes)
    requires Sound(step) && Ready(h) && h.state != Success && step(h, data).go
    ensures var s := step(h, data); var r := Drive(step, s.next, data[s.used..]);
      Drive(step, h, data) == (r.0, s.used + r.1)
  {
  }

  /** A run that gets further than its first step does has passed that step. */
  lemma GoNeeded(step: Stepper, h: Handshake, data: Bytes)
    requires Sound(step) && Ready(h) && h.state != Success
    requires Drive(step, h, data).0.log != step(h, data).next.log
    ensures step(h, data).go
    ensures var s := step(h, data); Drive(step, h, data).0 == Drive(step, s.next, data[s.used..]).0
  {
  }

  /** A run that halted stays halted until more data comes. */
  lemma DriveHalted(step: Stepper, h: Handshake, data: Bytes)
    requires Sound(step) && Ready(h) && Halted(h, |data|)
    ensures Same(Drive(step, h, data).0, h) && Drive(step, h, data).1 == 0
  {
  }

  /** Driving over data and then over what follows is driving over all of it. */
  ghost predicate Splits(step: Stepper, h: Handshake, data: Bytes, more: Bytes)
    requires Sound(step) && Ready(h)
  {
    var (mid, n) := Drive(step, h, data);
    var (end, k) := Drive(step, mid, data[n..] + more);
    var (all, m) := Drive(step, h, data + more);
    Same(end, all) && n + k == m
  }

  lemma {:induction false} DriveMore(step: Stepper, h: Handshake, data: Bytes, more: Bytes)
    requires Sound(step) && Ready(h)
    ensures Splits(step, h, data, more)
    decreases Rank(h.state)
  {
    if Halted(h, |data|) {
      SplitsHalted(step, h, data, more);
    } else {
      var s := step(h, data);
      var left := data[s.used..];
      assert step(h, data + more) == s;
      assert (data + more)[s.used..] == left + more;
      if s.go {
        DriveMore(step, s.next, left, more);
      }
      SplitsStep(step, h, data, more, s, left);
    }
  }

  lemma SplitsStep(step: Stepper, h: Handshake, data: Bytes, more: Bytes, s: Step, left: Bytes)
    requires Sound(step) && Ready(h) && h.state != Success && s.used <= |data|
    requires step(h, data) == s == step(h, data + more)
    requires left == data[s.used..] && (data + more)[s.used..] == left + more
    requires if s.go then Splits(step, s.next, left, more) else |data| >= h.required
    ensures Splits(step, h, data, more)
  {
    if s.go {
      var (mid, n) := Drive(step, s.next, left);
      assert Drive(step, h, data) == (mid, s.used + n);
      assert data[s.used + n..] == left[n..];
    } else {
      assert Drive(step, h, data) == Drive(step, h, data + more) == (s.next, s.used);
      DriveHalted(step, s.next, left + more);
    }
  }

  lemma SplitsHalted(step: Stepper, h: Handshake, data: Bytes, more: Bytes)
    requires Sound(step) && Ready(h) && Halted(h, |data|)
    ensures Splits(step, h, data, more)
  {
    assert data[0..] == data;
    if |data| >= h.required || h.state == Success {
      DriveHalted(step, h, data);
      DriveHalted(step, h, data + more);
      DriveHalted(step, Drive(step, h, data).0, data + more);
    } else {
      assert Drive(step, h, data) == (h, 0);
    }
  }

  /** What a handshake comes to: where it stands, and the data nobody has taken, first what is
      buffered and then what was not even read.
   */
  datatype Outcome = Outcome(h: Handshake, left: Bytes)

  function Joined(chunks: seq<Bytes>): (all: Bytes) {
    if chunks == [] then [] else chunks[0] + Joined(chunks[1..])
  }

  /** The handler of each read commits what it got, drives the state machine, and asks for another
      read only if the state machine is short of data.
   */
  function Feed(step: Stepper, h: Handshake, buffered: Bytes, chunks: seq<Bytes>): (r: Outcome)
    requires Sound(step) && Ready(h)
    decreases chunks
  {
    if chunks == [] then Outcome(h, buffered)
    else
      var data := buffered + chunks[0];
      var (next, n) := Drive(step, h, data);
      if |data| - n < next.required then Feed(step, next, data[n..], chunks[1..])
      else Outcome(next, data[n..] + Joined(chunks[1..]))
  }

  lemma {:induction false} FeedDrive(step: Stepper, h: Handshake, buffered: Bytes, chunks: seq<Bytes>)
    requires Sound(step) && Ready(h) && |buffered| < h.required
    ensures
      var all := buffered + Joined(chunks);
      var (end, n) := Drive(step, h, all);
      var r := Feed(step, h, buffered, chunks);
      Same(r.h, end) && r.left == all[n..]
    decreases chunks
  {
    var all := buffered + Joined(chunks);
    if chunks == [] {
      assert all == buffered;
      DriveHalted(step, h, all);
    } else {
      var data, rest := buffered + chunks[0], Joined(chunks[1..]);
      var (next, n) := Drive(step, h, data);
      assert all == data + rest;
      DriveMore(step, h, data, rest);
      Leftover(data, rest, n, Drive(step, next, data[n..] + rest).1);
      if |data| - n < next.required {
        FeedDrive(step, next, data[n..], chunks[1..]);
      } else {
        DriveHalted(step, next, data[n..] + rest);
      }
    }
  }

  /** Taking n and then k bytes leaves what taking n + k does. */
  lemma Leftover(data: Bytes, rest: Bytes, n: nat, k: nat)
    requires n <= |data| && n + k <= |data| + |rest|
    ensures (data + rest)[n + k..] == (data[n..] + rest)[k..]
  {
    assert (data + rest)[n..] == data[n..] + rest;
  }

  /** However the client's bytes are split up, the handshake ends in the same state, having made
      the same calls, and the same bytes are left for the destination.
   */
  lemma FragmentationIndependent(step: Stepper, cb: Callbacks, chunks: seq<Bytes>, others: seq<Bytes>)
    requires Machine(step, cb) && Joined(chunks) == Joined(others)
    ensures Same(Feed(step, Init, [], chunks).h, Feed(step, Init, [], others).h)
    ensures Feed(step, Init, [], chunks).left == Feed(step, Init, [], others).left
  {
    FeedDrive(step, Init, [], chunks);
    FeedDrive(step, Init, [], others);
  }
}
