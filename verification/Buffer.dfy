/** BasicBuffer of src/aws/proxy/buffer.h: a byte queue over a list of fixed-size blocks, which come
    from a freelist and go back to it.

    The blocks are real objects linked through `next`; `layout` says as values what they hold, and
    module Layouts how that is a queue. A reservation is the stretch of memory that follows the
    queue, and a view is the front of the queue; so the two can be outstanding at the same time.

    A buffer changes only itself, its own blocks, the freelist and the blocks waiting there. Any
    other buffer keeps its data and the memory it has handed out, because all its blocks are at
    home with it.
 */
module Buffers {
  import opened Blocks
  import opened Common
  import opened Freelists
  import opened Layouts

  /** A scatter-gather entry: `len` bytes from `start` of a block's memory. */
  datatype Span = Span(block: Block, start: nat, len: nat)

  /** The blocks of a list by their numbers. */
  type Serials = map<Block, nat>

  /** The i-th block has number base + i. */
  ghost predicate NumberAt(bs: seq<Block>, serials: Serials, base: nat, i: nat)
    requires i < |bs|
  {
    bs[i] in serials && serials[bs[i]] == base + i
  }

  /** A numbered block is in the list, at its number. */
  ghost predicate OnList(b: Block, bs: seq<Block>, serials: Serials, base: nat)
    requires b in serials
  {
    base <= serials[b] < base + |bs| && bs[serials[b] - base] == b
  }

  ghost predicate Numbered(bs: seq<Block>, serials: Serials, base: nat) {
    && (forall i {:trigger NumberAt(bs, serials, base, i)} :: 0 <= i < |bs| ==> NumberAt(bs, serials, base, i))
    && (forall b {:trigger OnList(b, bs, serials, base)} :: b in serials ==> OnList(b, bs, serials, base))
  }

  lemma NumberedMore(bs: seq<Block>, serials: Serials, base: nat, b: Block, n: nat)
    requires Numbered(bs, serials, base) && b !in serials && n == base + |bs|
    ensures Numbered(bs + [b], serials[b := n], base)
    ensures serials[b := n].Keys == serials.Keys + {b}
  {
    var more, all := bs + [b], serials[b := n];
    forall i | 0 <= i < |more|
      ensures NumberAt(more, all, base, i)
    {
      assert i < |bs| ==> NumberAt(bs, serials, base, i);
    }
    forall x | x in all
      ensures OnList(x, more, all, base)
    {
      assert x in serials ==> OnList(x, bs, serials, base);
    }
  }

  lemma NumberedLess(bs: seq<Block>, serials: Serials, base: nat)
    requires Numbered(bs, serials, base) && bs != []
    ensures Numbered(bs[1..], serials - {bs[0]}, base + 1)
  {
    var less, rest, up := bs[1..], serials - {bs[0]}, base + 1;
    assert NumberAt(bs, serials, base, 0);
    forall i | 0 <= i < |less|
      ensures NumberAt(less, rest, up, i)
    {
      assert NumberAt(bs, serials, base, i + 1);
    }
    forall x | x in rest
      ensures OnList(x, less, rest, up)
    {
      assert OnList(x, bs, serials, base);
    }
  }

  /** Different places in the list hold different blocks. */
  lemma Apart(bs: seq<Block>, serials: Serials, base: nat, k: nat)
    requires Numbered(bs, serials, base) && k < |bs|
    ensures forall i :: 0 <= i < |bs| && i != k ==> bs[i] != bs[k]
  {
    assert NumberAt(bs, serials, base, k);
    forall i | 0 <= i < |bs| && i != k
      ensures bs[i] != bs[k]
    {
      assert NumberAt(bs, serials, base, i);
    }
  }

  /** The i-th block is as the layout says, and linked to the next one. */
  ghost predicate TiedAt(bs: seq<Block>, l: Layout, i: nat)
    requires i < |bs| <= |l.cells| && |l.memory| == l.base + |l.cells|
    reads {bs[i]}
  {
    var b := bs[i];
    && b.offset == l.cells[i].offset && b.len == l.cells[i].len && b.buf == l.memory[l.base + i]
    && b.next == At(bs, i + 1)
  }

  ghost predicate Tied(bs: seq<Block>, l: Layout)
    reads bs
  {
    && |bs| == |l.cells| && |l.memory| == l.base + |bs|
    && forall i {:trigger TiedAt(bs, l, i)} :: 0 <= i < |bs| ==> TiedAt(bs, l, i)
  }

  /** The blocks' own fields, apart from how they are linked. */
  ghost predicate Holding(bs: seq<Block>, l: Layout)
    requires |bs| == |l.cells| && |l.memory| == l.base + |bs|
    reads bs`offset, bs`len, bs`buf
  {
    forall i {:trigger bs[i]} :: 0 <= i < |bs| ==>
      bs[i].offset == l.cells[i].offset && bs[i].len == l.cells[i].len && bs[i].buf == l.memory[l.base + i]
  }

  lemma TiedHolding(bs: seq<Block>, l: Layout)
    requires Tied(bs, l)
    ensures Holding(bs, l) && Linked(bs, At(bs, 0))
  {
    forall i | 0 <= i < |bs|
      ensures bs[i].offset == l.cells[i].offset && bs[i].len == l.cells[i].len && bs[i].buf == l.memory[l.base + i]
      ensures LinkAt(bs, i)
    {
      assert TiedAt(bs, l, i);
    }
  }

  lemma HoldingTied(bs: seq<Block>, l: Layout)
    requires |bs| == |l.cells| && |l.memory| == l.base + |bs| && Holding(bs, l) && Linked(bs, At(bs, 0))
    ensures Tied(bs, l)
  {
    forall i | 0 <= i < |bs|
      ensures TiedAt(bs, l, i)
    {
      assert LinkAt(bs, i);
    }
  }

  lemma TiedMore(bs: seq<Block>, l: Layout, b: Block)
    requires |bs| == |l.cells| && |l.memory| == l.base + |bs| && Holding(bs, l)
    requires b.offset == 0 && b.len == 0 && b.next == null
    requires forall i {:trigger bs[i].next} :: 0 <= i < |bs| - 1 ==> bs[i].next == bs[i + 1]
    requires bs != [] ==> bs[|bs| - 1].next == b
    ensures Tied(bs + [b], Appended(l, b.buf))
  {
    var more := bs + [b];
    forall i | 0 <= i < |more|
      ensures LinkAt(more, i)
    {
    }
    HoldingTied(more, Appended(l, b.buf));
  }

  /** The spans are these pieces of memory. */
  ghost predicate Named(spans: seq<Span>, pieces: seq<Piece>, serials: Serials) {
    && |spans| == |pieces|
    && forall i :: 0 <= i < |spans| ==>
         spans[i].block in serials && pieces[i] == Piece(serials[spans[i].block], spans[i].start, spans[i].len)
  }

  /** The data of a block. */
  ghost function Data(b: Block): (r: seq<Byte>)
    reads b`offset, b`len, b`buf
  {
    if b.offset + b.len <= |b.buf| then b.buf[b.offset..b.offset + b.len] else []
  }

  /** The data of the first i blocks. */
  ghost function DataIn(bs: seq<Block>, i: nat): (r: seq<Byte>)
    requires i <= |bs|
    reads bs`offset, bs`len, bs`buf
  {
    if i == 0 then [] else DataIn(bs, i - 1) + Data(bs[i - 1])
  }

  /** How much free space the first i blocks have. */
  ghost function SpaceIn(bs: seq<Block>, i: nat, capacity: nat): (n: int)
    requires i <= |bs|
    reads bs`offset, bs`len
  {
    if i == 0 then 0 else SpaceIn(bs, i - 1, capacity) + capacity - bs[i - 1].offset - bs[i - 1].len
  }

  class Buffer {
    const freelist: Freelist
    const capacity: nat  // Block::capacity
    var head: Block?
    var end: Block?
    var tail: Block?
    var blockCnt: nat
    var dataSize: nat
    var reserved: bool
    var peeked: bool
    // The list from head_ to tail_, its blocks by number, what they hold, and what that is for users.
    ghost var blocks: seq<Block>
    ghost var serials: Serials
    ghost var repr: set<Block>
    ghost var layout: Layout
    ghost var image: Image
    // How much memory the outstanding Reserve and Peek handed out.
    ghost var grantLen: nat
    ghost var viewLen: nat

    /** The real fields and blocks are as the ghost fields say. */
    ghost predicate Built()
      reads this`head, this`tail, this`blockCnt, this`blocks, this`serials, this`repr, this`layout, repr
    {
      && Within(blocks, repr) && repr == serials.Keys && Numbered(blocks, serials, layout.base)
      && Tied(blocks, layout) && Housed(repr, this, capacity)
      && capacity == layout.capacity == freelist.capacity
      && head == At(blocks, 0) && blockCnt == |blocks| && (blocks != [] ==> tail == blocks[|blocks| - 1])
    }

    ghost predicate Shaped()
      reads this`head, this`tail, this`blockCnt, this`blocks, this`serials, this`repr, this`layout, repr
    {
      forall key {:trigger OpenInner(this, key)} :: OpenInner(this, key) ==> Built()
    }

    /** That is a proper list with this image. */
    ghost predicate Sound()
      reads this`head, this`tail, this`blockCnt, this`blocks, this`serials, this`repr, this`layout
      reads this`image, repr
    {
      forall key {:trigger Open(this, key)} :: Open(this, key) ==>
        && Shaped() && Proper(layout) && image == ImageOf(layout)
        && capacity == layout.capacity && |blocks| == |layout.cells| && head == At(blocks, 0)
    }

    /** Data ends in block `end`. */
    ghost predicate Ended()
      reads this`end, this`blocks, this`layout
    {
      EndsAt(end)
    }

    /** Data ends in this block. */
    ghost predicate EndsAt(block: Block?)
      reads this`blocks, this`layout
    {
      forall key {:trigger Open(this, key)} :: Open(this, key) ==> block == At(blocks, layout.end)
    }

    ghost predicate Valid()
      reads this, repr
    {
      && Sound() && Ended() && capacity > 0
      && image.from + dataSize == image.to <= |image.line|
      && (reserved ==> image.to + grantLen <= |image.line|)
      && (peeked ==> viewLen <= dataSize)
    }

    /** The bytes in the queue. */
    ghost function Contents(): (bs: seq<Byte>)
      requires Valid()
      reads this, repr
    {
      image.line[image.from..image.to]
    }

    /** What the outstanding reservation's memory holds. */
    ghost function Reserved(): (bs: seq<Byte>)
      requires Valid() && reserved
      reads this, repr
    {
      image.line[image.to..image.to + grantLen]
    }

    /** The spans are the pieces of memory from `a` to `b` on the line. */
    ghost predicate Covers(spans: seq<Span>, pieces: seq<Piece>, a: nat, b: nat)
      reads this`serials
    {
      Covered(spans, pieces, a, b, serials)
    }

    ghost predicate Covered(spans: seq<Span>, pieces: seq<Piece>, a: nat, b: nat, serials: Serials) {
      forall key {:trigger OpenSpans(this, key)} :: OpenSpans(this, key) ==>
        Named(spans, pieces, serials) && Gapless(pieces, capacity, a, b)
    }

    ghost function Holds(): (h: Holdings)
      reads this`repr, freelist`pool, freelist`minted
    {
      Holdings(repr, freelist.pool, freelist.minted)
    }

    ghost function Now(): (f: Footing)
      reads this`image, this`serials, this`repr, freelist`pool, freelist`minted
    {
      Footing(image, serials, Holds())
    }

    ghost function LastBlock(): (bs: set<Block>)
      reads this`head, this`tail
    {
      if head == null || tail == null then {} else {tail}
    }

    constructor (freelist: Freelist)
      requires freelist.capacity > 0
      ensures Valid() && this.freelist == freelist && capacity == freelist.capacity
      ensures blocks == [] && repr == {} && dataSize == 0 && !reserved && !peeked
      ensures head == null && image == Image([], 0, 0)
    {
      this.freelist, capacity := freelist, freelist.capacity;
      head, end, tail, blockCnt := null, null, null, 0;
      dataSize, reserved, peeked := 0, false, false;
      blocks, serials, repr, grantLen, viewLen := [], map[], {}, 0, 0;
      layout, image := Layout(freelist.capacity, 0, [], 0, []), Image([], 0, 0);
    }

    /** The buffer and the freelist have no block in common. */
    lemma Separate()
      requires Sound() && freelist.Valid()
      ensures repr !! freelist.pool && LastBlock() <= repr && (freelist.head != null ==> freelist.head in freelist.pool)
      ensures forall b :: b in freelist.pool ==> b !in repr
    {
      Homes();
      freelist.Homes();
    }

    /** The blocks of the buffer are at home with it. */
    lemma Homes()
      requires Sound()
      ensures Housed(repr, this, capacity) && LastBlock() <= repr && capacity == freelist.capacity
      ensures head != null ==> head in repr
    {
      assert Open(this, 0) && OpenInner(this, 0);
    }

    // ---------------------------------------------------------------- growing

    /** Takes a block from the freelist to the back of the list. */
    method AppendNewBlock()
      requires Valid() && freelist.Valid()
      modifies this`head, this`end, this`tail, this`blockCnt, this`blocks, this`layout, this`serials, this`repr
      modifies this`image, repr, freelist, freelist.pool
      ensures Valid() && freelist.Valid() && Appending(old(blocks), old(layout), old(serials), old(image))
      ensures head != null && Conserved(old(Holds()), Holds())
      ensures forall b :: b in repr || b in freelist.pool ==>
                b in old(repr) || b in old(freelist.pool) || (fresh(b) && b in freelist.minted)
    {
      ghost var h := Holds();
      var b := Draw();
      Gained(h, b);
      Separate();
      Link(b);
    }

    /** A block from the freelist, now at home here. */
    method Draw() returns (b: Block)
      requires Valid() && freelist.Valid()
      modifies freelist, freelist.pool
      ensures Valid() && freelist.Valid() && b !in repr && b.home == this && |b.buf| == capacity
      ensures b.next == null && b.offset == 0 && b.len == 0 && (b in old(freelist.pool) || fresh(b))
      ensures freelist.pool == old(freelist.pool) - {b} && freelist.minted == old(freelist.minted) + {b}
      ensures b in old(freelist.pool) || b !in old(freelist.minted)
    {
      Homes();
      freelist.Homes();
      b := freelist.New(this);
    }

    /** The list has one more block, the last. */
    ghost predicate Appending(bs: seq<Block>, l: Layout, s: Serials, i: Image)
      reads this`tail, this`blocks, this`serials, this`layout, this`image, tail
    {
      && tail != null && tail !in s && blocks == bs + [tail] && serials == s[tail := |l.memory|]
      && layout == Appended(l, tail.buf) && image == i.(line := i.line + tail.buf)
    }

    /** Links a block in behind the last one. */
    method Link(b: Block)
      requires Valid() && b !in repr && b.home == this && b.next == null && b.offset == 0 && b.len == 0
      requires |b.buf| == capacity
      modifies this`head, this`end, this`tail, this`blockCnt, this`blocks, this`layout, this`serials, this`repr
      modifies this`image, LastBlock()`next
      ensures Valid() && Appending(old(blocks), old(layout), old(serials), old(image))
      ensures tail == b && repr == old(repr) + {b} && head != null
    {
      assert Open(this, 0);
      AppendedProper(layout, b.buf);
      ShapeLink(b);
    }

    method ShapeLink(b: Block)
      requires Shaped() && b !in repr && b.home == this && b.next == null && b.offset == 0 && b.len == 0
      requires |b.buf| == capacity
      modifies this`head, this`end, this`tail, this`blockCnt, this`blocks, this`layout, this`serials, this`repr
      modifies this`image, LastBlock()`next
      ensures Shaped() && Appending(old(blocks), old(layout), old(serials), old(image))
      ensures head == (if old(head) == null then b else old(head)) && end == (if old(head) == null then b else old(end))
      ensures tail == b && repr == old(repr) + {b}
    {
      assert OpenInner(this, 0);
      if blocks != [] {
        Apart(blocks, serials, layout.base, |blocks| - 1);
      }
      NumberedMore(blocks, serials, layout.base, b, |layout.memory|);
      TieLink(b);
    }

    method TieLink(b: Block)
      requires Tied(blocks, layout) && b !in serials && b.next == null && b.offset == 0 && b.len == 0
      requires head == At(blocks, 0) && (blocks != [] ==> tail == blocks[|blocks| - 1])
      requires forall i :: 0 <= i < |blocks| - 1 ==> blocks[i] != blocks[|blocks| - 1]
      requires forall i :: 0 <= i < |blocks| ==> blocks[i] != b
      modifies this`head, this`end, this`tail, this`blockCnt, this`blocks, this`layout, this`serials, this`repr
      modifies this`image, LastBlock()`next
      ensures Tied(blocks, layout)
      ensures head == (if old(head) == null then b else old(head)) && end == (if old(head) == null then b else old(end))
      ensures tail == b && blockCnt == old(blockCnt) + 1 && repr == old(repr) + {b}
      ensures Appending(old(blocks), old(layout), old(serials), old(image))
    {
      ghost var bs, l := blocks, layout;
      TiedHolding(bs, l);
      LinkedNext(bs, head);
      SetLink(b);
      TiedMore(bs, l, b);
    }

    /** The assignments of AppendNewBlock. */
    method SetLink(b: Block)
      requires (head != null ==> tail != null) && b !in serials
      modifies this`head, this`end, this`tail, this`blockCnt, this`blocks, this`layout, this`serials, this`repr
      modifies this`image, LastBlock()`next
      ensures head == (if old(head) == null then b else old(head)) && end == (if old(head) == null then b else old(end))
      ensures old(head) != null ==> old(tail).next == b
      ensures tail == b && blockCnt == old(blockCnt) + 1 && repr == old(repr) + {b}
      ensures Appending(old(blocks), old(layout), old(serials), old(image))
    {
      if head == null {
        head, end := b, b;
      } else {
        tail.next := b;
      }
      tail, blockCnt := b, blockCnt + 1;
      blocks, serials, repr := blocks + [b], serials[b := |layout.memory|], repr + {b};
      layout, image := Appended(layout, b.buf), image.(line := image.line + b.buf);
    }

    // ---------------------------------------------------------------- stepping through space

    /** A stepper that has come to block j, whose space begins at `at`. */
    ghost predicate Stands(block: Block?, j: nat, at: nat)
      reads this`blocks, this`layout
    {
      forall key {:trigger Open(this, key)} :: Open(this, key) ==>
        Start(layout) <= j <= |blocks| && block == At(blocks, j) && Front(layout, j) == at
    }

    /** SpaceStepper starts at the block where data ends, or behind it if that is full. */
    method StepperStart() returns (block: Block?, ghost j: nat)
      requires Valid()
      ensures Stands(block, j, image.to) && IsStart(j)
    {
      assert Open(this, 0) && OpenInner(this, 0);
      j := Start(layout);
      StartFront(layout);
      block := end;
      if block != null {
        assert TiedAt(blocks, layout, layout.end);
        if capacity - block.offset - block.len == 0 {
          block := block.next;
        }
      }
    }

    /** The stepper's block and its space; past the last block, a new one is added. */
    method Current(block: Block?, ghost j: nat, ghost at: nat) returns (ret: Block)
      requires Valid() && freelist.Valid() && Stands(block, j, at)
      modifies this`head, this`end, this`tail, this`blockCnt, this`blocks, this`layout, this`serials, this`repr
      modifies this`image, repr, freelist, freelist.pool
      ensures Valid() && freelist.Valid() && Grown(old(Now()), Now()) && (old(head) != null ==> head != null)
      ensures forall b :: b in repr || b in freelist.pool ==>
                b in old(repr) || b in old(freelist.pool) || (fresh(b) && b in freelist.minted)
      ensures Stands(ret, j, at)
    {
      if block == null {
        Extend(j, at);
        ret := tail;
      } else {
        ret := block;
      }
    }

    method Extend(ghost j: nat, ghost at: nat)
      requires Valid() && freelist.Valid() && Stands(null, j, at)
      modifies this`head, this`end, this`tail, this`blockCnt, this`blocks, this`layout, this`serials, this`repr
      modifies this`image, repr, freelist, freelist.pool
      ensures Valid() && freelist.Valid() && Grown(old(Now()), Now()) && (old(head) != null ==> head != null)
      ensures forall b :: b in repr || b in freelist.pool ==>
                b in old(repr) || b in old(freelist.pool) || (fresh(b) && b in freelist.minted)
      ensures tail != null && Stands(tail, j, at)
    {
      assert Open(this, 0) && OpenInner(this, 0);
      AppendNewBlock();
      AppendedProper(old(layout), tail.buf);
    }

    /** One span of the space of the stepper's block, of at most `limit` bytes, and the next block. */
    method SpanOf(block: Block, limit: nat, ghost j: nat, ghost at: nat)
      returns (span: Span, next: Block?, ghost piece: Piece)
      requires Valid() && Stands(block, j, at) && limit > 0
      ensures span.block in serials && piece == Piece(serials[span.block], span.start, span.len)
      ensures 0 < span.len <= limit && span.start + span.len <= capacity
      ensures Place(piece, capacity) == at && at + span.len <= |image.line|
      ensures span.len < limit || capacity <= limit ==> Stands(next, j + 1, at + span.len)
    {
      assert Open(this, 0) && OpenInner(this, 0);
      assert TiedAt(blocks, layout, j) && NumberAt(blocks, serials, layout.base, j);
      var space := capacity - block.offset - block.len;
      span := Span(block, block.offset + block.len, if limit >= space then space else limit);
      piece := Piece(serials[block], span.start, span.len);
      next := block.next;
      StepRoom(layout, j, span.len);
    }

    /** Adds a span of the stepper's block, of at most `limit` bytes. */
    method TakeOne(block: Block?, limit: nat, spans: seq<Span>, ghost pieces: seq<Piece>, ghost j: nat,
                   ghost from: nat, ghost at: nat, ghost base: Footing)
      returns (more: seq<Span>, n: nat, next: Block?, ghost longer: seq<Piece>)
      requires Valid() && freelist.Valid() && Stands(block, j, at) && limit > 0
      requires Covers(spans, pieces, from, at) && Grown(base, Now())
      modifies this`head, this`end, this`tail, this`blockCnt, this`blocks, this`layout, this`serials, this`repr
      modifies this`image, repr, freelist, freelist.pool
      ensures Valid() && freelist.Valid() && Grown(base, Now()) && (old(head) != null ==> head != null)
      ensures old(freelist.minted) <= freelist.minted
      ensures forall b :: b in repr || b in freelist.pool ==>
                b in old(repr) || b in old(freelist.pool) || (fresh(b) && b in freelist.minted)
      ensures Covers(more, longer, from, at + n)
      ensures 0 < n <= limit && n <= capacity && at + n <= |image.line|
      ensures n < limit || capacity <= limit ==> Stands(next, j + 1, at + n)
    {
      var b := Current(block, j, at);
      GrownStep(base, old(Now()), Now());
      StillCovers(spans, pieces, from, at, old(serials));
      more, n, next, longer := AddSpan(b, limit, spans, pieces, j, from, at);
    }

    method AddSpan(b: Block, limit: nat, spans: seq<Span>, ghost pieces: seq<Piece>, ghost j: nat,
                   ghost from: nat, ghost at: nat)
      returns (more: seq<Span>, n: nat, next: Block?, ghost longer: seq<Piece>)
      requires Valid() && Stands(b, j, at) && limit > 0 && Covers(spans, pieces, from, at)
      ensures Covers(more, longer, from, at + n)
      ensures 0 < n <= limit && n <= capacity && at + n <= |image.line|
      ensures n < limit || capacity <= limit ==> Stands(next, j + 1, at + n)
    {
      var span;
      ghost var piece;
      span, next, piece := SpanOf(b, limit, j, at);
      more, n, longer := spans + [span], span.len, pieces + [piece];
      assert Covers(more, longer, from, at + n) by {
        assert OpenSpans(this, 0);
        GaplessMore(pieces, piece, capacity, from, at);
      }
    }

    /** Spans stay what they are while their blocks keep their numbers. */
    lemma StillCovers(spans: seq<Span>, pieces: seq<Piece>, a: nat, b: nat, before: Serials)
      requires Extends(before, serials) && Covered(spans, pieces, a, b, before)
      ensures Covers(spans, pieces, a, b)
    {
      assert Open(this, 0);
    }

    lemma NoneCovered(at: nat)
      ensures Covers([], [], at, at)
    {
    }

    /** Describes free space from the front until `size` bytes are reached, adding blocks as needed;
        when `exact`, the last span is cut so as not to exceed them.
     */
    method TakeSpace(size: nat, exact: bool) returns (spans: seq<Span>, taken: nat, ghost pieces: seq<Piece>)
      requires Valid() && freelist.Valid()
      modifies this`head, this`end, this`tail, this`blockCnt, this`blocks, this`layout, this`serials, this`repr
      modifies this`image, repr, freelist, freelist.pool
      ensures Valid() && freelist.Valid() && Grown(old(Now()), Now()) && (old(head) != null ==> head != null)
      ensures forall b :: b in repr || b in freelist.pool ==>
                b in old(repr) || b in old(freelist.pool) || (fresh(b) && b in freelist.minted)
      ensures size <= taken && (exact ==> taken == size) && (size > 0 ==> taken < size + capacity)
      ensures image.to + taken <= |image.line|
      ensures Covers(spans, pieces, image.to, image.to + taken)
    {
      var block, j := StepperStart();
      ghost var from, at, base := image.to, image.to, Now();
      spans, taken, pieces := [], 0, [];
      NoneCovered(from);
      while taken < size
        invariant Valid() && freelist.Valid() && Grown(base, Now()) && (old(head) != null ==> head != null)
        invariant forall b :: b in repr || b in freelist.pool ==>
                    b in old(repr) || b in old(freelist.pool) || (fresh(b) && b in freelist.minted)
        invariant (exact ==> taken <= size) && (size > 0 ==> taken < size + capacity)
        invariant at == from + taken <= |image.line|
        invariant Covers(spans, pieces, from, at)
        invariant taken < size ==> Stands(block, j, at)
      {
        var n, limit := 0, if exact then size - taken else capacity;
        spans, n, block, pieces := TakeOne(block, limit, spans, pieces, j, from, at, base);
        taken, j, at := taken + n, j + 1, at + n;
      }
    }

    /** Hands out exactly the next `size` bytes of free space. */
    method Reserve(size: nat) returns (spans: seq<Span>, ghost pieces: seq<Piece>)
      requires Valid() && freelist.Valid() && !reserved
      modifies this`head, this`end, this`tail, this`blockCnt, this`blocks, this`layout, this`serials, this`repr
      modifies this`image, repr, freelist, freelist.pool
      modifies this`reserved, this`grantLen
      ensures Valid() && freelist.Valid() && Grown(old(Now()), Now()) && (old(head) != null ==> head != null)
      ensures forall b :: b in repr || b in freelist.pool ==>
                b in old(repr) || b in old(freelist.pool) || (fresh(b) && b in freelist.minted)
      ensures reserved && grantLen == size && (size > 0 ==> head != null)
      ensures Covers(spans, pieces, image.to, image.to + size)
    {
      var taken;
      spans, taken, pieces := TakeSpace(size, true);
      NonEmpty();
      reserved, grantLen := true, taken;
    }

    /** Hands out free space to the end of the block in which `size` bytes are reached. */
    method ReserveAtLeast(size: nat) returns (spans: seq<Span>, reservedSize: nat, ghost pieces: seq<Piece>)
      requires Valid() && freelist.Valid() && !reserved
      modifies this`head, this`end, this`tail, this`blockCnt, this`blocks, this`layout, this`serials, this`repr
      modifies this`image, repr, freelist, freelist.pool
      modifies this`reserved, this`grantLen
      ensures Valid() && freelist.Valid() && Grown(old(Now()), Now()) && (old(head) != null ==> head != null)
      ensures forall b :: b in repr || b in freelist.pool ==>
                b in old(repr) || b in old(freelist.pool) || (fresh(b) && b in freelist.minted)
      ensures reserved && grantLen == reservedSize >= size && (size > 0 ==> head != null)
      ensures size > 0 ==> reservedSize < size + capacity
      ensures Covers(spans, pieces, image.to, image.to + reservedSize)
    {
      spans, reservedSize, pieces := TakeSpace(size, false);
      NonEmpty();
      reserved, grantLen := true, reservedSize;
    }

    /** A list with no blocks has no space. */
    lemma NonEmpty()
      requires Valid()
      ensures head == null ==> image.to == |image.line|
    {
      assert Open(this, 0);
      Bounds(layout);
    }

    // ---------------------------------------------------------------- committing

    /** The total remaining space at the back of the buffer. */
    function SpaceSize(): (n: nat)
      requires Valid()
      reads this, repr
      ensures image.to + n == |image.line|
    {
      assert Open(this, 0) && OpenInner(this, 0);
      assert blocks != [] ==> TiedAt(blocks, layout, 0);
      TimesSum(layout.base, blockCnt, capacity);
      Bounds(layout);
      if head == null then 0
      else blockCnt * capacity - dataSize - head.offset
    }

    /** Publishes up to `size` bytes of the stepper's block; `rest` is what did not fit. */
    method CommitAt(block: Block, size: nat) returns (rest: nat)
      requires Shaped() && Proper(layout) && Start(layout) < |blocks| == |layout.cells| && size > 0
      requires block == blocks[Start(layout)]
      modifies this`end, this`layout, this`image, block`len
      ensures Shaped() && end == At(blocks, layout.end) && rest < size
      ensures layout == Committed(old(layout), old(Start(layout)), size - rest)
      ensures image == old(image).(to := old(image).to + size - rest)
      ensures size - rest <= Space(old(layout).cells[old(Start(layout))], capacity)
      ensures rest > 0 ==> size - rest == Space(old(layout).cells[old(Start(layout))], capacity)
    {
      assert OpenInner(this, 0);
      ghost var j, l := Start(layout), layout;
      assert TiedAt(blocks, layout, j);
      StepRoom(layout, j, 0);
      Apart(blocks, serials, layout.base, j);
      var space := capacity - block.offset - block.len;
      var toCommit := if size < space then size else space;
      Publish(block, toCommit, j);
      rest := size - toCommit;
      forall i | 0 <= i < |blocks|
        ensures TiedAt(blocks, layout, i)
      {
        assert old(TiedAt(blocks, l, i));
      }
    }

    method Following(block: Block, ghost j: nat) returns (next: Block?)
      requires Shaped() && j < |blocks| && block == blocks[j]
      ensures next == At(blocks, j + 1) && block in repr
    {
      assert OpenInner(this, 0);
      assert TiedAt(blocks, layout, j);
      next := block.next;
    }

    /** The assignments of Block::Commit. */
    method Publish(block: Block, n: nat, ghost j: nat)
      requires j < |layout.cells|
      modifies this`end, this`layout, this`image, block`len
      ensures end == block && block.len == old(block.len) + n
      ensures layout == Committed(old(layout), j, n) && image == old(image).(to := old(image).to + n)
    {
      end := block;
      block.len := block.len + n;
      layout, image := Committed(layout, j, n), image.(to := image.to + n);
    }

    /** One step of Commit, into the stepper's block; what did not fit goes into the next one. */
    method CommitStep(block: Block?, size: nat, ghost j: nat) returns (rest: nat, next: Block?)
      requires Sound() && Stands(block, j, image.to) && 0 < size && image.to + size <= |image.line|
      requires IsStart(j)
      modifies this`end, this`layout, this`image, repr`len
      ensures Sound() && Ended() && rest < size && image == old(image).(to := old(image).to + size - rest)
      ensures rest > 0 ==> Stands(next, j + 1, image.to) && IsStart(j + 1)
    {
      assert Open(this, 0);
      ghost var l := layout;
      RoomAtStart(l);
      next := Following(block, j);
      rest := CommitAt(block, size);
      CommittedProper(l, size - rest);
    }

    ghost predicate IsStart(j: nat)
      reads this`layout
    {
      forall key {:trigger Open(this, key)} :: Open(this, key) ==> j == Start(layout)
    }

    /** The loop of Commit: moves the end of the data `size` bytes on. */
    method CommitBlocks(size: nat)
      requires Valid() && image.to + size <= |image.line|
      modifies this`end, this`layout, this`image, repr`len
      ensures Sound() && Ended() && image == old(image).(to := old(image).to + size)
    {
      var block, j := StepperStart();
      var remaining := size;
      while remaining > 0
        invariant 0 <= remaining <= size && Sound() && Ended()
        invariant image == old(image).(to := old(image).to + size - remaining)
        invariant remaining > 0 ==> Stands(block, j, image.to) && IsStart(j)
      {
        remaining, block := CommitStep(block, remaining, j);
        j := j + 1;
      }
    }

    /** Appends the first `size` bytes of the free space to the queue. */
    method Commit(size: nat)
      requires Valid() && reserved && head != null && size <= SpaceSize()
      modifies this`end, this`layout, this`image, this`dataSize, this`reserved, repr`len
      ensures Valid() && !reserved && dataSize == old(dataSize) + size
      ensures image == old(image).(to := old(image).to + size)
      ensures size <= grantLen ==> Contents() == old(Contents()) + old(Reserved())[..size]
    {
      CommitBlocks(size);
      dataSize, reserved := dataSize + size, false;
      Joined(image.line, image.from, old(image).to, size, grantLen);
    }

    // ---------------------------------------------------------------- draining

    /** Drains what it can of `size` bytes from the first block. */
    method DrainFirst(size: nat) returns (rest: nat)
      requires Shaped() && head == At(blocks, 0) && |blocks| == |layout.cells| > 0
      modifies this`layout, this`image, head`offset, head`len
      ensures old(layout).cells != [] && Shaped() && layout == Shortened(old(layout), Share(old(layout), size))
      ensures rest == size - Share(old(layout), size) && image == old(image).(from := old(image).from + size - rest)
    {
      assert OpenInner(this, 0);
      ghost var l := layout;
      assert TiedAt(blocks, l, 0);
      Apart(blocks, serials, l.base, 0);
      var toDrain := if head.len < size then head.len else size;
      Consume(toDrain);
      rest := size - toDrain;
      forall i | 0 <= i < |blocks|
        ensures TiedAt(blocks, layout, i)
      {
        assert old(TiedAt(blocks, l, i));
      }
    }

    /** The assignments of Block::Drain. */
    method Consume(n: nat)
      requires head != null && n <= head.len && layout.cells != [] && n <= layout.cells[0].len
      modifies this`layout, this`image, head`offset, head`len
      ensures head.offset == old(head.offset) + n && head.len == old(head.len) - n
      ensures layout == Shortened(old(layout), n) && image == old(image).(from := old(image).from + n)
    {
      head.offset, head.len := head.offset + n, head.len - n;
      layout, image := Shortened(layout, n), image.(from := image.from + n);
    }

    /** Gives the used-up first block back to the freelist. */
    method Prune()
      requires Shaped() && freelist.Valid() && head != null && head == At(blocks, 0) && |blocks| == |layout.cells|
      modifies this`head, this`blockCnt, this`blocks, this`layout, this`serials, this`repr
      modifies freelist, head`next, head`home
      ensures Shaped() && freelist.Valid() && old(layout).cells != [] && layout == Dropped(old(layout))
      ensures blocks == old(blocks)[1..] && head == At(blocks, 0)
      ensures serials == old(serials) - {old(head)} && repr == old(repr) - {old(head)}
      ensures freelist.pool == old(freelist.pool) + {old(head)}
      ensures freelist.minted == old(freelist.minted) + {old(head)}
    {
      assert OpenInner(this, 0);
      ghost var bs, l := blocks, layout;
      Apart(blocks, serials, l.base, 0);
      NumberedLess(blocks, serials, l.base);
      assert TiedAt(blocks, l, 0);
      var next := head.next;
      freelist.Delete(head);
      SetHead(next);
      forall i | 0 <= i < |blocks|
        ensures TiedAt(blocks, layout, i)
      {
        assert old(TiedAt(bs, l, i + 1));
      }
    }

    /** The assignments of pruning. */
    method SetHead(next: Block?)
      requires blocks != [] && layout.cells != [] && blockCnt > 0
      modifies this`head, this`blockCnt, this`blocks, this`layout, this`serials, this`repr
      ensures head == next && blockCnt == old(blockCnt) - 1 && blocks == old(blocks)[1..]
      ensures layout == Dropped(old(layout))
      ensures serials == old(serials) - {old(blocks)[0]} && repr == old(repr) - {old(blocks)[0]}
    {
      head, blockCnt := next, blockCnt - 1;
      serials, repr := serials - {blocks[0]}, repr - {blocks[0]};
      blocks, layout := blocks[1..], Dropped(layout);
    }

    /** Drains what it can of `size` bytes from the first block, and prunes it if that uses it up. */
    method DrainHead(size: nat) returns (rest: nat)
      requires Shaped() && Proper(layout) && freelist.Valid() && head == At(blocks, 0)
      requires |blocks| == |layout.cells| > 0 && capacity == layout.capacity
      modifies this`head, this`blockCnt, this`blocks, this`layout, this`serials, this`repr, this`image
      modifies freelist, head
      ensures Shaped() && freelist.Valid() && head == At(blocks, 0)
      ensures old(layout).cells != [] && layout == Drained(old(layout), Share(old(layout), size))
      ensures old(layout.base) <= layout.base && |old(blocks)| >= layout.base - old(layout.base)
      ensures blocks == old(blocks)[layout.base - old(layout.base)..]
      ensures rest == size - Share(old(layout), size) && image == old(image).(from := old(image).from + size - rest)
      ensures Conserved(old(Holds()), Holds()) && repr <= old(repr) && freelist.minted <= old(freelist.minted + repr)
      ensures Shortens(old(serials), serials, layout.base) && freelist.pool <= old(freelist.pool + repr)
    {
      assert OpenInner(this, 0);
      rest := DrainFirst(size);
      assert TiedAt(blocks, layout, 0) && NumberAt(blocks, serials, layout.base, 0);
      if head.len == 0 && capacity - head.offset - head.len == 0 {
        Moved(Holds(), head);
        ShortensLess(serials, head, layout.base);
        Prune();
      }
    }

    /** One step of Drain. */
    method DrainStep(size: nat) returns (rest: nat)
      requires Sound() && Ended() && freelist.Valid() && 0 < size && image.from + size <= image.to
      modifies this`head, this`blockCnt, this`blocks, this`layout, this`serials, this`repr, this`image
      modifies freelist, repr
      ensures Sound() && freelist.Valid() && rest < size
      ensures image == old(image).(from := old(image).from + size - rest)
      ensures image.from < image.to ==> Ended()
      ensures Conserved(old(Holds()), Holds()) && repr <= old(repr) && freelist.minted <= old(freelist.minted + repr)
      ensures Shortens(old(serials), serials, layout.base) && freelist.pool <= old(freelist.pool + repr)
      ensures old(layout.base) <= layout.base
    {
      Homes();
      assert Open(this, 0);
      DrainedProper(layout, size);
      rest := DrainHead(size);
    }

    /** The loop of Drain: moves the start of the data `size` bytes on, pruning blocks on the way. */
    method DrainBlocks(size: nat)
      requires Sound() && Ended() && freelist.Valid() && image.from + size <= image.to
      modifies this`head, this`blockCnt, this`blocks, this`layout, this`serials, this`repr, this`image
      modifies freelist, repr
      ensures Sound() && freelist.Valid() && image == old(image).(from := old(image).from + size)
      ensures image.from < image.to ==> Ended()
      ensures Conserved(old(Holds()), Holds()) && repr <= old(repr) && freelist.minted <= old(freelist.minted + repr)
      ensures Shortens(old(serials), serials, layout.base) && freelist.pool <= old(freelist.pool + repr)
    {
      var remaining := size;
      while remaining > 0
        invariant 0 <= remaining <= size && Sound() && freelist.Valid()
        invariant image == old(image).(from := old(image).from + size - remaining)
        invariant image.from < image.to ==> Ended()
        invariant Conserved(old(Holds()), Holds()) && repr <= old(repr)
        invariant freelist.minted <= old(freelist.minted + repr)
        invariant Shortens(old(serials), serials, layout.base) && freelist.pool <= old(freelist.pool + repr)
      {
        ghost var h, s, base := Holds(), serials, layout.base;
        remaining := DrainStep(remaining);
        ConservedStep(old(Holds()), h, Holds());
        ShortensStep(old(serials), s, serials, base, layout.base);
      }
    }

    /** Everything in Drain but the last optimization. */
    method DrainData(size: nat)
      requires Valid() && freelist.Valid() && peeked && size <= dataSize
      modifies this`head, this`blockCnt, this`blocks, this`layout, this`serials, this`repr, this`image
      modifies freelist, repr
      modifies this`end, this`dataSize, this`peeked
      ensures Valid() && freelist.Valid() && !peeked && dataSize == old(dataSize) - size
      ensures image == old(image).(from := old(image).from + size)
      ensures Conserved(old(Holds()), Holds()) && repr <= old(repr) && freelist.minted <= old(freelist.minted + repr)
      ensures Shortens(old(serials), serials, layout.base) && freelist.pool <= old(freelist.pool + repr)
    {
      DrainBlocks(size);
      EmptyAtHead();
      SetDrained(size);
    }

    /** The assignments at the end of Drain. */
    method SetDrained(size: nat)
      requires size <= dataSize
      modifies this`dataSize, this`peeked, this`end
      ensures dataSize == old(dataSize) - size && !peeked && end == if dataSize == 0 then head else old(end)
    {
      dataSize, peeked := dataSize - size, false;
      if dataSize == 0 {
        end := head;
      }
    }

    /** Without data, data ends in the first block. */
    lemma EmptyAtHead()
      requires Sound()
      ensures image.from == image.to ==> EndsAt(head)
    {
      assert Open(this, 0);
      Bounds(layout);
    }

    /** Makes all of an empty buffer's first block free space again. */
    method ResetHead()
      requires Valid() && dataSize == 0 && head != null && !reserved
      modifies this`layout, this`image, head`offset
      ensures Valid() && head.offset == 0 && layout.base == old(layout.base)
    {
      assert Open(this, 0);
      Bounds(layout);
      ResetProper(layout);
      ResetFirst();
    }

    method ResetFirst()
      requires Shaped() && head != null && head == At(blocks, 0) && |blocks| == |layout.cells|
      modifies this`layout, this`image, head`offset
      ensures old(layout).cells != [] && Shaped() && head.offset == 0
      ensures layout == Reset(old(layout)) && image == ImageOf(layout).(line := old(image).line)
    {
      assert OpenInner(this, 0);
      ghost var l := layout;
      Apart(blocks, serials, l.base, 0);
      assert TiedAt(blocks, l, 0);
      head.offset := 0;
      layout, image := Reset(l), ImageOf(Reset(l)).(line := image.line);
      forall i | 0 <= i < |blocks|
        ensures TiedAt(blocks, layout, i)
      {
        assert old(TiedAt(blocks, l, i));
      }
    }

    /** Removes the first `size` bytes of the queue. What is reserved stays in place. */
    method Drain(size: nat)
      requires Valid() && freelist.Valid() && peeked && size <= dataSize
      modifies this`head, this`blockCnt, this`blocks, this`layout, this`serials, this`repr, this`image
      modifies freelist, repr
      modifies this`end, this`dataSize, this`peeked
      ensures Valid() && freelist.Valid() && !peeked && dataSize == old(dataSize) - size
      ensures Contents() == old(Contents())[size..]
      ensures reserved ==> image == old(image).(from := old(image).from + size)
      ensures dataSize == 0 && !reserved && head != null ==> head.offset == 0
      ensures Conserved(old(Holds()), Holds()) && repr <= old(repr) && freelist.minted <= old(freelist.minted + repr)
      ensures Shortens(old(serials), serials, layout.base) && freelist.pool <= old(freelist.pool + repr)
    {
      DrainData(size);
      Homes();
      freelist.Homes();
      if dataSize == 0 && head != null && !reserved {
        ResetHead();
      }
    }

    // ---------------------------------------------------------------- looking at data

    /** Describes all data in the queue. */
    method Peek() returns (spans: seq<Span>, ghost pieces: seq<Piece>)
      requires Valid() && !peeked
      modifies this`peeked, this`viewLen
      ensures Valid() && peeked && viewLen == dataSize && Covers(spans, pieces, image.from, image.to)
    {
      spans, pieces := DataSpans();
      peeked, viewLen := true, dataSize;
    }

    /** The data of the blocks before the i-th, which is `block`, reaches to `at`. */
    ghost predicate Looks(block: Block?, i: nat, at: nat)
      reads this`blocks, this`layout
    {
      forall key {:trigger Open(this, key)} :: Open(this, key) ==>
        i <= |blocks| && block == At(blocks, i) && at == Seen(layout, i)
    }

    /** The loop of Peek. */
    method DataSpans() returns (spans: seq<Span>, ghost pieces: seq<Piece>)
      requires Valid()
      ensures Covers(spans, pieces, image.from, image.to)
    {
      spans, pieces := [], [];
      var b := head;
      ghost var i, at := 0, image.from;
      assert Looks(b, i, at) && |blocks| >= 0 by {
        assert Open(this, 0);
      }
      while b != null && b.len > 0
        invariant Looks(b, i, at) && Covers(spans, pieces, image.from, at) && i <= |blocks|
        decreases |blocks| - i
      {
        spans, b, pieces, at := ViewOne(b, spans, pieces, i, image.from, at);
        i := i + 1;
      }
      AllSeen(b, i, at);
    }

    method ViewOne(b: Block, spans: seq<Span>, ghost pieces: seq<Piece>, ghost i: nat, ghost from: nat, ghost at: nat)
      returns (more: seq<Span>, next: Block?, ghost longer: seq<Piece>, ghost to: nat)
      requires Valid() && Looks(b, i, at) && Covers(spans, pieces, from, at) && b.len > 0
      ensures Looks(next, i + 1, to) && Covers(more, longer, from, to) && i < |blocks|
    {
      assert OpenSpans(this, 0) && Open(this, 0) && OpenInner(this, 0);
      assert TiedAt(blocks, layout, i) && NumberAt(blocks, serials, layout.base, i);
      SeenMore(layout, i);
      ghost var piece := Piece(serials[b], b.offset, b.len);
      GaplessMore(pieces, piece, capacity, from, at);
      more, longer, to, next := spans + [Span(b, b.offset, b.len)], pieces + [piece], at + b.len, b.next;
    }

    lemma AllSeen(b: Block?, i: nat, at: nat)
      requires Valid() && Looks(b, i, at) && (b == null || b.len == 0)
      ensures at == image.to
    {
      assert Open(this, 0) && OpenInner(this, 0);
      if b != null {
        assert TiedAt(blocks, layout, i);
      }
      SeenAll(layout, i);
    }

    // ---------------------------------------------------------------- reading and writing

    /** The block of a piece that lies past the drained part is in the list and holds what the line
        says.
     */
    lemma Located(block: Block, p: Piece)
      requires Valid() && block in serials && p.number == serials[block] && p.len > 0 && p.start + p.len <= capacity
      requires image.from <= Place(p, capacity) && Place(p, capacity) + p.len <= |image.line|
      ensures |block.buf| == capacity
      ensures var at := Place(p, capacity); image.line[at..at + p.len] == block.buf[p.start..p.start + p.len]
    {
      assert Open(this, 0) && OpenInner(this, 0);
      assert OnList(block, blocks, serials, layout.base);
      assert TiedAt(blocks, layout, p.number - layout.base);
      LineAt(layout.memory, capacity, p.number, p.start, p.start + p.len);
    }

    /** A write into a reserved span. */
    method Store(span: Span, bytes: seq<Byte>, ghost p: Piece)
      requires Valid() && span.block in serials && p == Piece(serials[span.block], span.start, span.len)
      requires image.to <= Place(p, capacity) && Place(p, capacity) + p.len <= |image.line|
      requires |bytes| == span.len > 0 && span.start + span.len <= capacity
      modifies this`layout, this`image, span.block`buf
      ensures Valid() && layout.base == old(layout.base)
      ensures image == old(image).(line := Patched(old(image).line, Place(p, capacity), bytes))
    {
      Locate(span.block, p);
      OverwriteSound(span.block, span.start, bytes, p.number);
    }

    method OverwriteSound(block: Block, start: nat, bytes: seq<Byte>, ghost k: nat)
      requires Sound() && Ended() && layout.base <= k < |layout.memory| == layout.base + |blocks|
      requires block == blocks[k - layout.base] && start + |bytes| <= |block.buf| == |layout.memory[k]| == capacity
      requires Times(k, capacity) + capacity <= |image.line|
      modifies this`layout, this`image, block`buf
      ensures Sound() && Ended() && layout.base == old(layout.base)
      ensures image == old(image).(line := Patched(old(image).line, Times(k, capacity) + start, bytes))
    {
      assert Open(this, 0);
      StoredProper(layout, k, start, bytes);
      Overwrite(block, start, bytes, k);
    }

    /** The block of a piece past the drained part is in the list, at its number. */
    lemma Locate(block: Block, p: Piece)
      requires Valid() && block in serials && p.number == serials[block] && p.len > 0 && p.start + p.len <= capacity
      requires image.from <= Place(p, capacity) && Place(p, capacity) + p.len <= |image.line|
      ensures layout.base <= p.number < |layout.memory| == layout.base + |blocks| && layout.capacity == capacity
      ensures block == blocks[p.number - layout.base] && |block.buf| == |layout.memory[p.number]| == capacity
      ensures Times(p.number, capacity) + capacity <= |image.line|
    {
      assert Open(this, 0) && OpenInner(this, 0);
      assert OnList(block, blocks, serials, layout.base);
      assert TiedAt(blocks, layout, p.number - layout.base);
      LineSize(layout.memory, capacity);
      TimesLess(p.number, |layout.memory|, capacity);
    }

    method Overwrite(block: Block, start: nat, bytes: seq<Byte>, ghost k: nat)
      requires Shaped() && layout.base <= k < |layout.memory| == layout.base + |blocks|
      requires block == blocks[k - layout.base]
      requires start + |bytes| <= |block.buf| == |layout.memory[k]| == capacity
      requires Times(k, capacity) + capacity <= |image.line|
      modifies this`layout, this`image, block`buf
      ensures Shaped() && layout == Stored(old(layout), k, start, bytes)
      ensures image == old(image).(line := Patched(old(image).line, Times(k, capacity) + start, bytes))
    {
      assert OpenInner(this, 0);
      ghost var l := layout;
      Apart(blocks, serials, l.base, k - l.base);
      assert TiedAt(blocks, l, k - l.base);
      block.buf := Patched(block.buf, start, bytes);
      layout := Stored(l, k, start, bytes);
      image := image.(line := Patched(image.line, Times(k, capacity) + start, bytes));
      forall i | 0 <= i < |blocks|
        ensures TiedAt(blocks, layout, i)
      {
        assert old(TiedAt(blocks, l, i));
      }
    }

    /** Writes `bytes` into the front of the reserved spans. */
    method Scatter(spans: seq<Span>, bytes: seq<Byte>, ghost pieces: seq<Piece>)
      requires Valid() && reserved && |bytes| <= grantLen && Covers(spans, pieces, image.to, image.to + grantLen)
      modifies this`layout, this`image, repr`buf
      ensures Valid() && layout.base == old(layout.base) && Contents() == old(Contents())
      ensures image == old(image).(line := Patched(old(image).line, old(image).to, bytes))
      ensures |image.line| == |old(image).line| && Reserved()[..|bytes|] == bytes
    {
      ghost var i := image;
      ScatterAll(spans, bytes, pieces, i);
      Untouched(i.line, image.line, i.from, i.to, grantLen, bytes);
    }

    method ScatterAll(spans: seq<Span>, bytes: seq<Byte>, ghost pieces: seq<Piece>, ghost i: Image)
      requires Valid() && reserved && |bytes| <= grantLen && Covers(spans, pieces, image.to, image.to + grantLen)
      requires i == image
      modifies this`layout, this`image, repr`buf
      ensures Valid() && layout.base == old(layout.base)
      ensures image == i.(line := Patched(i.line, i.to, bytes))
    {
      var k, done := 0, 0;
      PatchedStart(i.line, i.to, bytes);
      FirstPiece(spans, pieces, i.to, i.to + grantLen);
      while done < |bytes|
        invariant Valid() && layout.base == old(layout.base) && done <= |bytes|
        invariant image == i.(line := Patched(i.line, i.to, bytes[..done]))
        invariant done < |bytes| ==> Reaches(pieces, i.to + grantLen, k, i.to + done)
      {
        done := ScatterOne(spans, k, bytes, done, pieces, i);
        k := k + 1;
      }
    }

    /** The k-th piece begins at `at`. */
    ghost predicate Reaches(pieces: seq<Piece>, b: nat, k: nat, at: nat) {
      forall key {:trigger OpenSpans(this, key)} :: OpenSpans(this, key) ==>
        k <= |pieces| && Reach(pieces, capacity, b, k) == at
    }

    lemma FirstPiece(spans: seq<Span>, pieces: seq<Piece>, a: nat, b: nat)
      requires Covers(spans, pieces, a, b)
      ensures Reaches(pieces, b, 0, a)
    {
      assert OpenSpans(this, 0);
      GaplessAt(pieces, capacity, a, b, 0);
    }

    /** What the k-th span is. */
    lemma KthPiece(spans: seq<Span>, pieces: seq<Piece>, a: nat, b: nat, k: nat, at: nat)
      requires Covers(spans, pieces, a, b) && Reaches(pieces, b, k, at) && at < b
      ensures a <= at && k < |spans| == |pieces| && spans[k].block in serials
      ensures pieces[k] == Piece(serials[spans[k].block], spans[k].start, spans[k].len)
      ensures Place(pieces[k], capacity) == at && at + spans[k].len <= b
      ensures spans[k].len > 0 && spans[k].start + spans[k].len <= capacity
      ensures Reaches(pieces, b, k + 1, at + spans[k].len)
    {
      assert OpenSpans(this, 0);
      GaplessAt(pieces, capacity, a, b, k);
    }

    /** Fills the k-th span with what belongs there. */
    method ScatterOne(spans: seq<Span>, k: nat, bytes: seq<Byte>, done: nat, ghost pieces: seq<Piece>, ghost i: Image)
      returns (next: nat)
      requires Valid() && reserved && done < |bytes| <= grantLen && i.to + grantLen <= |i.line|
      requires Covers(spans, pieces, i.to, i.to + grantLen) && Reaches(pieces, i.to + grantLen, k, i.to + done)
      requires image == i.(line := Patched(i.line, i.to, bytes[..done]))
      modifies this`layout, this`image, repr`buf
      ensures Valid() && layout.base == old(layout.base) && done < next <= |bytes|
      ensures image == i.(line := Patched(i.line, i.to, bytes[..next]))
      ensures next < |bytes| ==> Reaches(pieces, i.to + grantLen, k + 1, i.to + next)
    {
      KthPiece(spans, pieces, i.to, i.to + grantLen, k, i.to + done);
      InRepr(spans[k].block);
      var n := if spans[k].len < |bytes| - done then spans[k].len else |bytes| - done;
      StorePart(Span(spans[k].block, spans[k].start, n), bytes, done, pieces[k].(len := n), i);
      next := done + n;
    }

    /** Writes the bytes from `done` on into a span. */
    method StorePart(span: Span, bytes: seq<Byte>, done: nat, ghost p: Piece, ghost i: Image)
      requires Valid() && span.block in repr && span.block in serials
      requires p == Piece(serials[span.block], span.start, span.len) && Place(p, capacity) == i.to + done
      requires span.len > 0 && done + span.len <= |bytes| && i.to + |bytes| <= |i.line|
      requires span.start + span.len <= capacity && image == i.(line := Patched(i.line, i.to, bytes[..done]))
      modifies this`layout, this`image, repr`buf
      ensures Valid() && layout.base == old(layout.base)
      ensures image == i.(line := Patched(i.line, i.to, bytes[..done + span.len]))
    {
      PatchedStep(i.line, i.to, bytes, done, span.len);
      Store(span, bytes[done..done + span.len], p);
    }

    lemma InRepr(b: Block)
      requires Sound() && b in serials
      ensures b in repr
    {
      assert Open(this, 0) && OpenInner(this, 0);
    }

    /** Reads the first `size` bytes, or all if there are fewer, through spans viewed when the data
        ended at `to`.
     */
    method Gather(spans: seq<Span>, size: nat, ghost pieces: seq<Piece>, ghost to: nat) returns (bytes: seq<Byte>)
      requires Valid() && image.from <= to <= image.to && Covers(spans, pieces, image.from, to)
      ensures |bytes| == (if size <= to - image.from then size else to - image.from)
      ensures bytes == Contents()[..|bytes|]
    {
      bytes := [];
      var k := 0;
      ghost var from := image.from;
      FirstPiece(spans, pieces, from, to);
      while k < |spans| && |bytes| < size
        invariant |bytes| <= size && from + |bytes| <= to && bytes == image.line[from..from + |bytes|]
        invariant |bytes| < size ==> Reaches(pieces, to, k, from + |bytes|) && k <= |spans|
      {
        bytes := GatherOne(spans, k, bytes, size, pieces, from, to);
        k := k + 1;
      }
      if |bytes| < size {
        LastPiece(spans, pieces, from, to, k, from + |bytes|);
      }
      Prefix(image.line, from, image.to, |bytes|);
    }

    lemma LastPiece(spans: seq<Span>, pieces: seq<Piece>, a: nat, b: nat, k: nat, at: nat)
      requires Covers(spans, pieces, a, b) && Reaches(pieces, b, k, at) && k == |spans|
      ensures at == b
    {
      assert OpenSpans(this, 0);
    }

    /** Reads what is wanted of the k-th span. */
    method GatherOne(spans: seq<Span>, k: nat, bytes: seq<Byte>, size: nat, ghost pieces: seq<Piece>,
                     ghost from: nat, ghost to: nat) returns (more: seq<Byte>)
      requires Valid() && image.from == from <= to <= image.to && Covers(spans, pieces, from, to)
      requires k < |spans| && |bytes| < size && from + |bytes| <= to && bytes == image.line[from..from + |bytes|]
      requires Reaches(pieces, to, k, from + |bytes|)
      ensures |more| <= size && from + |more| <= to && more == image.line[from..from + |more|]
      ensures |more| < size ==> Reaches(pieces, to, k + 1, from + |more|)
    {
      NotPast(spans, pieces, from, to, k, from + |bytes|);
      KthPiece(spans, pieces, from, to, k, from + |bytes|);
      var n := if size - |bytes| > spans[k].len then spans[k].len else size - |bytes|;
      more := Load(Span(spans[k].block, spans[k].start, n), bytes, pieces[k].(len := n), from);
    }

    /** Reads a span that follows what has been read. */
    method Load(span: Span, bytes: seq<Byte>, ghost p: Piece, ghost from: nat) returns (more: seq<Byte>)
      requires Valid() && span.block in serials && p == Piece(serials[span.block], span.start, span.len)
      requires image.from <= from && Place(p, capacity) == from + |bytes| && from + |bytes| + span.len <= |image.line|
      requires span.len > 0 && span.start + span.len <= capacity && bytes == image.line[from..from + |bytes|]
      ensures |more| == |bytes| + span.len && more == image.line[from..from + |more|]
    {
      Located(span.block, p);
      more := bytes + span.block.buf[span.start..span.start + span.len];
      Adjoin(image.line, from, from + |bytes|, from + |bytes| + span.len);
    }

    lemma NotPast(spans: seq<Span>, pieces: seq<Piece>, a: nat, b: nat, k: nat, at: nat)
      requires Covers(spans, pieces, a, b) && Reaches(pieces, b, k, at) && k < |spans|
      ensures at < b
    {
      assert OpenSpans(this, 0);
      GaplessAt(pieces, capacity, a, b, k);
    }

    /** Spans behind the data stay what they are when the data before is drained. */
    lemma CoversKept(spans: seq<Span>, pieces: seq<Piece>, a: nat, b: nat, before: Serials)
      requires Sound() && Covered(spans, pieces, a, b, before) && Shortens(before, serials, layout.base)
      requires image.from <= a && b <= |image.line|
      ensures Covers(spans, pieces, a, b)
    {
      assert Open(this, 0) && OpenSpans(this, 0);
      forall i | 0 <= i < |spans|
        ensures spans[i].block in serials && serials[spans[i].block] == pieces[i].number
      {
        GaplessAt(pieces, capacity, a, b, i);
        Layouts.Located(layout, pieces[i]);
      }
    }

    lemma CoversTotal(spans: seq<Span>, pieces: seq<Piece>, a: nat, b: nat)
      requires Covers(spans, pieces, a, b)
      ensures a + Total(spans) == b
    {
      assert OpenSpans(this, 0);
      NamedTotal(spans, pieces, serials, capacity, a, b);
    }

    /** The outstanding reservation is filled with `bytes`, which are committed. */
    method Fill(spans: seq<Span>, bytes: seq<Byte>, ghost pieces: seq<Piece>)
      requires Valid() && reserved && 0 < grantLen && |bytes| <= grantLen
      requires Covers(spans, pieces, image.to, image.to + grantLen)
      modifies this`layout, this`image, this`end, this`dataSize, this`reserved, repr`buf, repr`len
      ensures Valid() && !reserved && dataSize == old(dataSize) + |bytes|
      ensures Contents() == old(Contents()) + bytes && image.from == old(image).from
    {
      Scatter(spans, bytes, pieces);
      NonEmpty();
      Commit(|bytes|);
    }

    /** The first `size` bytes are read through the outstanding view, and drained. */
    method Empty(spans: seq<Span>, size: nat, ghost pieces: seq<Piece>) returns (bytes: seq<Byte>)
      requires Valid() && freelist.Valid() && peeked && size <= viewLen
      requires Covers(spans, pieces, image.from, image.from + viewLen)
      modifies this`head, this`blockCnt, this`blocks, this`layout, this`serials, this`repr, this`image
      modifies freelist, repr
      modifies this`end, this`dataSize, this`peeked
      ensures Valid() && freelist.Valid() && !peeked && dataSize == old(dataSize) - size
      ensures |bytes| == size && bytes == old(Contents())[..size] && Contents() == old(Contents())[size..]
      ensures reserved ==> image == old(image).(from := old(image).from + size)
      ensures Conserved(old(Holds()), Holds()) && repr <= old(repr) && freelist.minted <= old(freelist.minted + repr)
      ensures Shortens(old(serials), serials, layout.base) && freelist.pool <= old(freelist.pool + repr)
    {
      bytes := Gather(spans, size, pieces, image.from + viewLen);
      Drain(size);
    }

    /** Appends `bytes` to the queue. */
    method CopyIn(bytes: seq<Byte>)
      requires Valid() && freelist.Valid() && !reserved && (bytes == [] ==> head != null)
      modifies this`head, this`end, this`tail, this`blockCnt, this`blocks, this`layout, this`serials, this`repr
      modifies this`image, repr, freelist, freelist.pool
      modifies this`reserved, this`grantLen, this`dataSize
      ensures Valid() && freelist.Valid() && !reserved && Contents() == old(Contents()) + bytes && head != null
      ensures Conserved(old(Holds()), Holds()) && Extends(old(serials), serials) && image.from == old(image).from
      ensures forall b :: b in repr || b in freelist.pool ==>
                b in old(repr) || b in old(freelist.pool) || (fresh(b) && b in freelist.minted)
    {
      var spans, pieces := Reserve(|bytes|);
      Homes();
      freelist.Homes();
      Prefixed(old(image), image);
      CopyFill(spans, bytes, pieces);
    }

    method CopyFill(spans: seq<Span>, bytes: seq<Byte>, ghost pieces: seq<Piece>)
      requires Valid() && reserved && head != null && |bytes| == grantLen
      requires Covers(spans, pieces, image.to, image.to + grantLen)
      modifies this`layout, this`image, this`end, this`dataSize, this`reserved, repr`buf, repr`len
      ensures Valid() && !reserved && Contents() == old(Contents()) + bytes && image.from == old(image).from
    {
      Scatter(spans, bytes, pieces);
      assert Reserved() == bytes;
      Commit(|bytes|);
    }

    /** Takes the first `size` bytes, or all if there are fewer, off the queue. */
    method CopyOut(size: nat) returns (bytes: seq<Byte>)
      requires Valid() && freelist.Valid() && !peeked
      modifies this`head, this`blockCnt, this`blocks, this`layout, this`serials, this`repr, this`image
      modifies freelist, repr
      modifies this`end, this`dataSize, this`peeked, this`viewLen
      ensures Valid() && freelist.Valid() && !peeked && old(Contents()) == bytes + Contents()
      ensures |bytes| == if size <= old(dataSize) then size else old(dataSize)
      ensures reserved ==> image == old(image).(from := old(image).from + |bytes|)
      ensures Conserved(old(Holds()), Holds()) && repr <= old(repr) && freelist.minted <= old(freelist.minted + repr)
      ensures Shortens(old(serials), serials, layout.base) && freelist.pool <= old(freelist.pool + repr)
    {
      var spans, pieces := Peek();
      bytes := Gather(spans, size, pieces, image.to);
      SplitAt(Contents(), |bytes|);
      Drain(|bytes|);
    }

    /** The destructor: all blocks go back to the freelist. */
    method Destroy()
      requires Valid() && freelist.Valid()
      modifies freelist, repr
      ensures freelist.Valid() && freelist.pool == old(freelist.pool + repr)
      ensures freelist.minted == old(freelist.minted + repr)
    {
      assert Open(this, 0) && OpenInner(this, 0);
      LinkedUp();
      freelist.DeleteChain(head, blocks, repr, this);
    }

    /** The list as the freelist sees it. */
    lemma LinkedUp()
      requires Built()
      ensures Linked(blocks, head) && |repr| == |blocks|
    {
      TiedHolding(blocks, layout);
      NumberedSize(blocks, serials, layout.base);
    }

    // ---------------------------------------------------------------- block by block

    /** The queue is the blocks' data end to end, and the two sizes are the blocks' sums. */
    lemma BlockSums()
      requires Valid()
      ensures Contents() == DataIn(blocks, |blocks|) && dataSize == |DataIn(blocks, |blocks|)|
      ensures SpaceSize() == SpaceIn(blocks, |blocks|, capacity)
    {
      DataOnLine(|blocks|);
      SpaceOnLine(|blocks|);
      assert Open(this, 0);
      SeenAll(layout, |blocks|);
      LineSize(layout.memory, capacity);
    }

    lemma {:induction false} DataOnLine(i: nat)
      requires Valid() && i <= |blocks|
      ensures image.from <= Seen(layout, i) <= |image.line|
      ensures DataIn(blocks, i) == image.line[image.from..Seen(layout, i)]
    {
      if i == 0 {
        DataStart();
      } else {
        DataOnLine(i - 1);
        DataMore(i - 1, Seen(layout, i - 1), Seen(layout, i));
      }
    }

    lemma DataMore(i: nat, p: nat, q: nat)
      requires Valid() && i < |blocks| && image.from <= p == Seen(layout, i) <= |image.line| && q == Seen(layout, i + 1)
      requires DataIn(blocks, i) == image.line[image.from..p]
      ensures p <= q <= |image.line| && DataIn(blocks, i + 1) == image.line[image.from..q]
    {
      DataStep(i, p);
      Adjoin(image.line, image.from, p, q);
    }

    lemma DataStart()
      requires Valid()
      ensures Seen(layout, 0) == image.from
    {
      assert Open(this, 0);
    }

    lemma DataStep(i: nat, p: nat)
      requires Valid() && i < |blocks| && image.from <= p == Seen(layout, i) <= |image.line|
      ensures p <= Seen(layout, i + 1) <= |image.line| && Data(blocks[i]) == image.line[p..Seen(layout, i + 1)]
    {
      assert Open(this, 0) && OpenInner(this, 0);
      var b := blocks[i];
      assert TiedAt(blocks, layout, i) && NumberAt(blocks, serials, layout.base, i);
      CellOnLine(layout, i);
    }

    lemma {:induction false} SpaceOnLine(i: nat)
      requires Valid() && i <= |blocks|
      ensures SpaceIn(blocks, i, capacity) ==
              if i <= layout.end then 0 else Times(layout.base + i, capacity) - image.to
    {
      if i > 0 {
        SpaceOnLine(i - 1);
        assert Open(this, 0) && OpenInner(this, 0);
        assert TiedAt(blocks, layout, i - 1);
      }
    }
  }

  lemma {:induction false} NumberedSize(bs: seq<Block>, serials: Serials, base: nat)
    requires Numbered(bs, serials, base)
    ensures |serials.Keys| == |bs|
  {
    if bs == [] {
      forall b
        ensures b !in serials
      {
        assert b in serials ==> OnList(b, bs, serials, base);
      }
    } else {
      assert NumberAt(bs, serials, base, 0);
      NumberedLess(bs, serials, base);
      NumberedSize(bs[1..], serials - {bs[0]}, base + 1);
      assert serials.Keys == (serials - {bs[0]}).Keys + {bs[0]};
    }
  }

  // ---------------------------------------------------------------- sequences

  lemma PatchedStart(s: seq<Byte>, p: nat, bytes: seq<Byte>)
    requires p + |bytes| <= |s|
    ensures Patched(s, p, bytes[..0]) == s && bytes[..|bytes|] == bytes
  {
  }

  lemma PatchedStep(s: seq<Byte>, p: nat, bytes: seq<Byte>, done: nat, n: nat)
    requires p + |bytes| <= |s| && done + n <= |bytes|
    ensures Patched(Patched(s, p, bytes[..done]), p + done, bytes[done..done + n]) == Patched(s, p, bytes[..done + n])
  {
  }

  /** A write at `to` shows in what is reserved there and not in the data before. */
  lemma Untouched(s: seq<Byte>, t: seq<Byte>, from: nat, to: nat, grant: nat, bytes: seq<Byte>)
    requires from <= to && to + grant <= |s| && |bytes| <= grant && t == Patched(s, to, bytes)
    ensures |t| == |s| && t[from..to] == s[from..to] && t[to..to + grant][..|bytes|] == bytes
  {
    assert t == s[..to] + (bytes + s[to + |bytes|..]);
    assert t[..to] == s[..to];
    assert t[from..to] == t[..to][from..] && s[from..to] == s[..to][from..];
    assert t[to..to + |bytes|] == bytes;
    Prefix(t, to, to + grant, |bytes|);
  }

  lemma Adjoin(s: seq<Byte>, a: nat, b: nat, c: nat)
    requires a <= b <= c <= |s|
    ensures s[a..b] + s[b..c] == s[a..c]
  {
  }

  lemma Prefix(s: seq<Byte>, a: nat, b: nat, n: nat)
    requires a + n <= b <= |s|
    ensures s[a..b][..n] == s[a..a + n]
  {
  }

  lemma Prefixed(i: Image, j: Image)
    requires Enlarged(i, j) && i.from <= i.to <= |i.line|
    ensures i.line[i.from..i.to] == j.line[j.from..j.to]
  {
  }

  lemma SplitAt(s: seq<Byte>, k: nat)
    requires k <= |s|
    ensures s == s[..k] + s[k..]
  {
  }

  /** What users of a buffer stand on: its image, the numbers of its blocks, and who has which blocks. */
  datatype Footing = Footing(image: Image, serials: Serials, holds: Holdings)

  /** More blocks have been linked in, and that is all. */
  ghost predicate Grown(f: Footing, g: Footing) {
    Enlarged(f.image, g.image) && Extends(f.serials, g.serials) && Conserved(f.holds, g.holds)
  }

  lemma GrownStep(f: Footing, g: Footing, h: Footing)
    requires Grown(f, g) && Grown(g, h)
    ensures Grown(f, h)
  {
    ConservedStep(f.holds, g.holds, h.holds);
  }

  /** More memory behind the same. */
  ghost predicate Enlarged(i: Image, j: Image) {
    i.from == j.from && i.to == j.to && i.line <= j.line
  }

  lemma Joined(s: seq<Byte>, a: nat, b: nat, n: nat, grant: nat)
    requires a <= b && b + n <= |s|
    ensures n <= grant && b + grant <= |s| ==> s[a..b + n] == s[a..b] + s[b..b + grant][..n]
  {
    if n <= grant && b + grant <= |s| {
      assert s[b..b + grant][..n] == s[b..b + n];
    }
  }

  /** How many bytes the spans hold. */
  function Total(spans: seq<Span>): (n: nat) {
    if spans == [] then 0 else Total(spans[..|spans| - 1]) + spans[|spans| - 1].len
  }

  lemma {:induction false} NamedTotal(spans: seq<Span>, pieces: seq<Piece>, serials: Serials, capacity: nat,
                                      a: nat, b: nat)
    requires Named(spans, pieces, serials) && Gapless(pieces, capacity, a, b)
    ensures a + Total(spans) == b
  {
    if spans != [] {
      var n := |spans| - 1;
      NamedTotal(spans[..n], pieces[..n], serials, capacity, a, Place(pieces[n], capacity));
    }
  }

  /** Blocks keep their numbers, but those numbered below `base` are gone. */
  ghost predicate Shortens(s: Serials, t: Serials, base: nat) {
    forall b :: b in s && base <= s[b] ==> b in t && t[b] == s[b]
  }

  lemma ShortensLess(s: Serials, b: Block, base: nat)
    requires b in s && s[b] == base
    ensures Shortens(s, s - {b}, base + 1)
  {
  }

  lemma ShortensStep(s: Serials, t: Serials, u: Serials, a: nat, b: nat)
    requires Shortens(s, t, a) && Shortens(t, u, b) && a <= b
    ensures Shortens(s, u, b)
  {
  }

  /** Blocks keep their numbers. */
  ghost predicate Extends(s: Serials, t: Serials) {
    forall b :: b in s ==> b in t && t[b] == s[b]
  }
}
