/** A user of one buffer, who keeps the spans of a reservation and of a view and later writes and reads
    through them.
 */
module Clients {
  import opened Blocks
  import opened Buffers
  import opened Common
  import opened Freelists
  import opened Layouts

  /** What a user does. Fill writes through the spans of a reservation, Read reads through those of a
      view.
   */
  datatype Op =
    | Reserve(size: nat) | ReserveAtLeast(size: nat) | Fill(bytes: seq<Byte>) | Commit(size: nat)
    | Peek | Read(size: nat) | Drain(size: nat) | CopyIn(bytes: seq<Byte>) | CopyOut(size: nat)

  /** A buffer as its user sees it: the queue, the memory behind it, how much of that is reserved and how
      much of the queue is in view, if so, and whether there is any block.
   */
  datatype Queue = Queue(data: seq<Byte>, behind: seq<Byte>, grant: Option<nat>, view: Option<nat>, linked: bool)

  const NOTHING := Queue([], [], None, None, false)

  function When(on: bool, n: nat): (r: Option<nat>) {
    if on then Some(n) else None
  }

  function Least(m: nat, n: nat): (k: nat) {
    if m <= n then m else n
  }

  /** What a buffer asserts of its caller; and one writes and reads only what one was given. */
  predicate Allowed(q: Queue, op: Op) {
    match op
    case Reserve(_) => q.grant.None?
    case ReserveAtLeast(_) => q.grant.None?
    case Fill(bytes) => q.grant.Some? && |bytes| <= q.grant.value <= |q.behind|
    case Commit(size) => q.grant.Some? && q.linked && size <= |q.behind|
    case Peek => q.view.None?
    case Read(_) => q.view.Some? && q.view.value <= |q.data|
    case Drain(size) => q.view.Some? && size <= |q.data|
    case CopyIn(bytes) => q.grant.None? && (bytes == [] ==> q.linked)
    case CopyOut(_) => q.view.None?
  }

  /** What an operation makes of a buffer. What is reserved stays in its place, with what it holds, while
      the front of the queue is looked at or taken away.
   */
  ghost predicate Leaves(q: Queue, op: Op, n: Queue)
    requires Allowed(q, op)
  {
    match op
    case Reserve(size) => Grants(q, size, n) && n.grant == Some(size)
    case ReserveAtLeast(size) => Grants(q, size, n)
    case Fill(bytes) => n == q.(behind := bytes + q.behind[|bytes|..])
    case Commit(size) => n == Queue(q.data + q.behind[..size], q.behind[size..], None, q.view, true)
    case Peek => n == q.(view := Some(|q.data|))
    case Read(_) => n == q
    case Drain(size) => Drains(q, size, n)
    case CopyIn(bytes) => n.data == q.data + bytes && n.grant.None? && n.view == q.view && n.linked
    case CopyOut(size) => Drains(q, Least(size, |q.data|), n)
  }

  ghost predicate Grants(q: Queue, size: nat, n: Queue) {
    && n.data == q.data && n.view == q.view && q.behind <= n.behind && (q.linked || size > 0 ==> n.linked)
    && n.grant.Some? && size <= n.grant.value <= |n.behind|
  }

  ghost predicate Drains(q: Queue, size: nat, n: Queue)
    requires size <= |q.data|
  {
    && n.data == q.data[size..] && n.view.None? && n.grant == q.grant
    && (q.grant.Some? ==> n.behind == q.behind)
  }

  /** The bytes that an operation gives its caller. */
  function Gives(q: Queue, op: Op): (out: seq<Byte>)
    requires Allowed(q, op)
  {
    match op
    case Read(size) => q.data[..Least(size, q.view.value)]
    case CopyOut(size) => q.data[..Least(size, |q.data|)]
    case _ => []
  }

  // What images have to do with it.

  lemma BehindMore(i: Image, j: Image)
    requires Enlarged(i, j) && i.from <= i.to <= |i.line|
    ensures i.line[i.from..i.to] == j.line[j.from..j.to] && i.line[i.to..] <= j.line[j.to..]
  {
  }

  lemma BehindFilled(s: seq<Byte>, to: nat, bytes: seq<Byte>)
    requires to + |bytes| <= |s|
    ensures Patched(s, to, bytes)[to..] == bytes + s[to..][|bytes|..]
  {
    assert s[to..][|bytes|..] == s[to + |bytes|..];
    assert Patched(s, to, bytes) == s[..to] + (bytes + s[to + |bytes|..]);
  }

  lemma BehindCommitted(s: seq<Byte>, from: nat, to: nat, size: nat)
    requires from <= to && to + size <= |s|
    ensures s[from..to + size] == s[from..to] + s[to..][..size] && s[to + size..] == s[to..][size..]
  {
    assert s[to..][..size] == s[to..to + size];
  }

  class Client {
    const buffer: Buffer
    var granted: seq<Span>
    var shown: seq<Span>
    ghost var grantPieces: seq<Piece>
    ghost var shownPieces: seq<Piece>
    ghost var queue: Queue  // what the user sees

    ghost predicate Granted()
      reads this`granted, this`grantPieces, buffer`reserved, buffer`grantLen, buffer`image, buffer`serials
    {
      buffer.reserved ==> buffer.Covers(granted, grantPieces, buffer.image.to, buffer.image.to + buffer.grantLen)
    }

    ghost predicate Shown()
      reads this`shown, this`shownPieces, buffer`peeked, buffer`viewLen, buffer`image, buffer`serials
    {
      buffer.peeked ==> buffer.Covers(shown, shownPieces, buffer.image.from, buffer.image.from + buffer.viewLen)
    }

    ghost predicate Sound()
      reads this`granted, this`grantPieces, this`shown, this`shownPieces, buffer, buffer.repr
    {
      buffer.Valid() && Granted() && Shown()
    }

    ghost predicate Valid()
      reads this, buffer, buffer.repr
    {
      Sound() && queue == Now()
    }

    ghost function Now(): (q: Queue)
      requires buffer.Valid()
      reads buffer, buffer.repr
    {
      Queue(buffer.Contents(), buffer.image.line[buffer.image.to..], When(buffer.reserved, buffer.grantLen),
            When(buffer.peeked, buffer.viewLen), buffer.head != null)
    }

    constructor (list: Freelist)
      requires list.capacity > 0
      ensures Valid() && fresh(buffer) && buffer.freelist == list && buffer.repr == {} && queue == NOTHING
    {
      buffer := new Buffer(list);
      granted, shown, grantPieces, shownPieces, queue := [], [], [], [], NOTHING;
    }

    method Ask(size: nat, exact: bool)
      requires Sound() && buffer.freelist.Valid() && !buffer.reserved
      modifies this`granted, this`grantPieces, buffer, buffer.repr, buffer.freelist, buffer.freelist.pool
      ensures Sound() && buffer.freelist.Valid() && Conserved(old(buffer.Holds()), buffer.Holds())
      ensures Grants(old(Now()), size, Now()) && (exact ==> Now().grant == Some(size))
      ensures forall b :: b in buffer.repr || b in buffer.freelist.pool ==>
                b in old(buffer.repr) || b in old(buffer.freelist.pool) || (fresh(b) && b in buffer.freelist.minted)
    {
      var spans, pieces := Obtain(size, exact);
      granted, grantPieces := spans, pieces;
    }

    method Obtain(size: nat, exact: bool) returns (spans: seq<Span>, ghost pieces: seq<Piece>)
      requires buffer.Valid() && Shown() && buffer.freelist.Valid() && !buffer.reserved
      modifies buffer, buffer.repr, buffer.freelist, buffer.freelist.pool
      ensures buffer.Valid() && Shown() && buffer.reserved
      ensures buffer.Covers(spans, pieces, buffer.image.to, buffer.image.to + buffer.grantLen)
      ensures buffer.freelist.Valid() && Conserved(old(buffer.Holds()), buffer.Holds())
      ensures Grants(old(Now()), size, Now()) && (exact ==> Now().grant == Some(size))
      ensures forall b :: b in buffer.repr || b in buffer.freelist.pool ==>
                b in old(buffer.repr) || b in old(buffer.freelist.pool) || (fresh(b) && b in buffer.freelist.minted)
    {
      ghost var s := buffer.serials;
      if exact {
        spans, pieces := buffer.Reserve(size);
      } else {
        var n;
        spans, n, pieces := buffer.ReserveAtLeast(size);
      }
      BehindMore(old(buffer.image), buffer.image);
      if buffer.peeked {
        buffer.StillCovers(shown, shownPieces, buffer.image.from, buffer.image.from + buffer.viewLen, s);
      }
    }

    method Fill(bytes: seq<Byte>)
      requires Sound() && buffer.reserved && |bytes| <= buffer.grantLen
      modifies buffer`layout, buffer`image, buffer.repr`buf
      ensures Sound() && Leaves(old(Now()), Op.Fill(bytes), Now())
    {
      BehindFilled(buffer.image.line, buffer.image.to, bytes);
      buffer.Scatter(granted, bytes, grantPieces);
    }

    method Commit(size: nat)
      requires Sound() && buffer.reserved && buffer.head != null && size <= buffer.SpaceSize()
      modifies buffer, buffer.repr`len
      ensures Sound() && Leaves(old(Now()), Op.Commit(size), Now())
      ensures buffer.repr == old(buffer.repr)
    {
      BehindCommitted(buffer.image.line, buffer.image.from, buffer.image.to, size);
      buffer.Commit(size);
    }

    method Peek()
      requires Sound() && !buffer.peeked
      modifies this`shown, this`shownPieces, buffer`peeked, buffer`viewLen
      ensures Sound() && Leaves(old(Now()), Op.Peek, Now())
    {
      var spans, pieces := buffer.Peek();
      shown, shownPieces := spans, pieces;
    }

    method Read(size: nat) returns (bytes: seq<Byte>)
      requires Sound() && buffer.peeked
      ensures bytes == Now().data[..Least(size, buffer.viewLen)]
    {
      bytes := buffer.Gather(shown, size, shownPieces, buffer.image.from + buffer.viewLen);
    }

    method Drain(size: nat)
      requires Sound() && buffer.freelist.Valid() && buffer.peeked && size <= buffer.dataSize
      modifies buffer, buffer.repr, buffer.freelist
      ensures Sound() && buffer.freelist.Valid() && Conserved(old(buffer.Holds()), buffer.Holds())
      ensures Drains(old(Now()), size, Now())
      ensures buffer.repr <= old(buffer.repr) && buffer.freelist.pool <= old(buffer.freelist.pool + buffer.repr)
      ensures buffer.freelist.minted <= old(buffer.freelist.minted + buffer.repr)
    {
      ghost var s, i := buffer.serials, buffer.image;
      buffer.Drain(size);
      if buffer.reserved {
        buffer.CoversKept(granted, grantPieces, i.to, i.to + buffer.grantLen, s);
      }
    }

    method CopyIn(bytes: seq<Byte>)
      requires Sound() && buffer.freelist.Valid() && !buffer.reserved && (bytes == [] ==> buffer.head != null)
      modifies buffer, buffer.repr, buffer.freelist, buffer.freelist.pool
      ensures Sound() && buffer.freelist.Valid() && Conserved(old(buffer.Holds()), buffer.Holds())
      ensures Leaves(old(Now()), Op.CopyIn(bytes), Now())
      ensures forall b :: b in buffer.repr || b in buffer.freelist.pool ==>
                b in old(buffer.repr) || b in old(buffer.freelist.pool) || (fresh(b) && b in buffer.freelist.minted)
    {
      ghost var s := buffer.serials;
      buffer.CopyIn(bytes);
      if buffer.peeked {
        buffer.StillCovers(shown, shownPieces, buffer.image.from, buffer.image.from + buffer.viewLen, s);
      }
    }

    method CopyOut(size: nat) returns (bytes: seq<Byte>)
      requires Sound() && buffer.freelist.Valid() && !buffer.peeked
      modifies buffer, buffer.repr, buffer.freelist
      ensures Sound() && buffer.freelist.Valid() && Conserved(old(buffer.Holds()), buffer.Holds())
      ensures bytes == old(Now()).data[..Least(size, old(buffer.dataSize))]
      ensures Drains(old(Now()), Least(size, old(buffer.dataSize)), Now())
      ensures buffer.repr <= old(buffer.repr) && buffer.freelist.pool <= old(buffer.freelist.pool + buffer.repr)
      ensures buffer.freelist.minted <= old(buffer.freelist.minted + buffer.repr)
    {
      ghost var s, i := buffer.serials, buffer.image;
      bytes := buffer.CopyOut(size);
      if buffer.reserved {
        buffer.CoversKept(granted, grantPieces, i.to, i.to + buffer.grantLen, s);
      }
    }

    method Operate(op: Op) returns (out: seq<Byte>)
      requires Sound() && buffer.freelist.Valid() && buffer.repr <= buffer.freelist.minted && Allowed(Now(), op)
      modifies this`granted, this`grantPieces, this`shown, this`shownPieces
      modifies buffer, buffer.repr, buffer.freelist, buffer.freelist.pool
      ensures Sound() && buffer.freelist.Valid() && Conserved(old(buffer.Holds()), buffer.Holds())
      ensures Leaves(old(Now()), op, Now()) && out == Gives(old(Now()), op)
      ensures buffer.repr <= buffer.freelist.minted
      ensures forall b :: b in buffer.repr || b in buffer.freelist.pool ==>
                b in old(buffer.repr) || b in old(buffer.freelist.pool) || fresh(b)
    {
      buffer.Separate();
      buffer.freelist.Homes();
      out := [];
      match op {
        case Reserve(size) => Ask(size, true);
        case ReserveAtLeast(size) => Ask(size, false);
        case Fill(bytes) => Fill(bytes);
        case Commit(size) => Commit(size);
        case Peek => Peek();
        case Read(size) => out := Read(size);
        case Drain(size) => Drain(size);
        case CopyIn(bytes) => CopyIn(bytes);
        case CopyOut(size) => out := CopyOut(size);
      }
    }

    /** Any operation that is allowed. */
    method Perform(op: Op) returns (out: seq<Byte>)
      requires Valid() && buffer.freelist.Valid() && buffer.repr <= buffer.freelist.minted && Allowed(queue, op)
      modifies this, buffer, buffer.repr, buffer.freelist, buffer.freelist.pool
      ensures Valid() && buffer.freelist.Valid() && Conserved(old(buffer.Holds()), buffer.Holds())
      ensures Leaves(old(queue), op, queue) && out == Gives(old(queue), op)
      ensures buffer.repr <= buffer.freelist.minted
      ensures forall b :: b in buffer.repr || b in buffer.freelist.pool ==>
                b in old(buffer.repr) || b in old(buffer.freelist.pool) || fresh(b)
    {
      out := Operate(op);
      queue := Now();
    }

    function Granting(): (n: nat)
      requires Valid() && buffer.reserved
      reads this, buffer, buffer.repr
      ensures n == buffer.grantLen
    {
      buffer.CoversTotal(granted, grantPieces, buffer.image.to, buffer.image.to + buffer.grantLen);
      Total(granted)
    }

    method IsAllowed(op: Op) returns (b: bool)
      requires Valid()
      ensures b == Allowed(queue, op)
    {
      match op {
        case Reserve(_) => b := !buffer.reserved;
        case ReserveAtLeast(_) => b := !buffer.reserved;
        case Fill(bytes) => b := buffer.reserved && |bytes| <= Granting();
        case Commit(size) => b := buffer.reserved && buffer.head != null && size <= buffer.SpaceSize();
        case Peek => b := !buffer.peeked;
        case Read(_) => b := buffer.peeked;
        case Drain(size) => b := buffer.peeked && size <= buffer.dataSize;
        case CopyIn(bytes) => b := !buffer.reserved && (bytes == [] ==> buffer.head != null);
        case CopyOut(_) => b := !buffer.peeked;
      }
    }
  }
}
