/** What the blocks of a buffer hold, as values: how a list of storage blocks implements a queue of
    bytes. Module Buffers keeps real blocks in the shape described here.

    A block's memory is its used-up prefix, then its consumable data, then its free space. Blocks
    are numbered in the order in which they were linked into the list, and all memory ever
    linked in is thought of as one line, block number k lying at Times(k, capacity). On the line
    the data is a single stretch, from `From` to `To`.
 */
module Layouts {
  import opened Common

  /** The header of a block. */
  datatype Cell = Cell(offset: nat, len: nat)

  /** A list of blocks, of which the first is number `base` and data ends in the one at `end`, and
      the memory of all blocks by number, as it was last seen.
   */
  datatype Layout = Layout(capacity: nat, base: nat, cells: seq<Cell>, end: nat, memory: seq<seq<Byte>>)

  function Space(c: Cell, capacity: nat): (n: int) {
    capacity - c.offset - c.len
  }

  /** What the i-th block of a list looks like: only the first may have a used-up prefix, and it
      is never used up entirely; data fills the blocks before `end`; those after are untouched.
   */
  ghost predicate Fits(c: Cell, i: nat, end: nat, capacity: nat) {
    && c.offset < capacity && c.offset + c.len <= capacity
    && (0 < i ==> c.offset == 0)
    && (i < end ==> c.offset + c.len == capacity)
    && (0 < i <= end ==> c.len > 0)
    && (end < i ==> c.len == 0)
  }

  ghost predicate Sized(memory: seq<seq<Byte>>, capacity: nat) {
    forall k :: 0 <= k < |memory| ==> |memory[k]| == capacity
  }

  /** A proper list with a single stretch of data. */
  ghost predicate Proper(l: Layout) {
    && l.capacity > 0
    && (if l.cells == [] then l.end == 0 else l.end < |l.cells|)
    && (forall i :: 0 <= i < |l.cells| ==> Fits(l.cells[i], i, l.end, l.capacity))
    && |l.memory| == l.base + |l.cells| && Sized(l.memory, l.capacity)
  }

  // ---------------------------------------------------------------- the line

  ghost function Times(n: nat, c: nat): (p: nat) {
    if n == 0 then 0 else Times(n - 1, c) + c
  }

  lemma {:induction false} TimesSum(m: nat, n: nat, c: nat)
    ensures Times(m + n, c) == Times(m, c) + n * c
  {
    if n > 0 {
      TimesSum(m, n - 1, c);
      assert n * c == (n - 1) * c + c;
    }
  }

  lemma {:induction false} TimesLess(k: nat, n: nat, c: nat)
    requires k < n
    ensures Times(k, c) + c == Times(k + 1, c) <= Times(n, c)
  {
    if k + 1 < n {
      TimesLess(k, n - 1, c);
    }
  }

  /** Where the data begins. */
  ghost function From(l: Layout): (p: nat) {
    Times(l.base, l.capacity) + if l.cells == [] then 0 else l.cells[0].offset
  }

  /** Where the free space of block j, or of the block yet to come, begins. */
  ghost function Front(l: Layout, j: nat): (p: nat) {
    Times(l.base + j, l.capacity) + if j >= |l.cells| then 0 else l.cells[j].offset + l.cells[j].len
  }

  /** Where the data ends. */
  ghost function To(l: Layout): (p: nat) {
    Front(l, l.end)
  }

  /** Where the memory ends. */
  ghost function Top(l: Layout): (p: nat) {
    Times(|l.memory|, l.capacity)
  }

  /** The memory on the line. */
  ghost function Line(memory: seq<seq<Byte>>): (line: seq<Byte>) {
    if memory == [] then [] else Line(memory[..|memory| - 1]) + memory[|memory| - 1]
  }

  lemma {:induction false} LineSize(memory: seq<seq<Byte>>, c: nat)
    requires Sized(memory, c)
    ensures |Line(memory)| == Times(|memory|, c)
  {
    if memory != [] {
      LineSize(memory[..|memory| - 1], c);
    }
  }

  /** Data begins before it ends, both on the line; if there is none, it ends in the first block. */
  lemma Bounds(l: Layout)
    requires Proper(l)
    ensures From(l) <= To(l) <= Top(l) == |Line(l.memory)|
    ensures From(l) == To(l) ==> l.end == 0
    ensures l.end > 0 ==> l.cells[0].len > 0 && To(l) > Times(l.base + 1, l.capacity)
  {
    LineSize(l.memory, l.capacity);
    if l.cells != [] {
      TimesLess(l.base + l.end, |l.memory|, l.capacity);
      if l.end > 0 {
        TimesLess(l.base, l.base + l.end, l.capacity);
      }
    }
  }

  /** What a buffer is for its users: the line, and where the data on it begins and ends. */
  datatype Image = Image(line: seq<Byte>, from: nat, to: nat)

  ghost function ImageOf(l: Layout): (i: Image) {
    Image(Line(l.memory), From(l), To(l))
  }

  // ---------------------------------------------------------------- another block

  /** The list with an untouched block at the back. */
  ghost function Appended(l: Layout, buf: seq<Byte>): (m: Layout) {
    l.(cells := l.cells + [Cell(0, 0)], memory := l.memory + [buf])
  }

  lemma AppendedProper(l: Layout, buf: seq<Byte>)
    requires Proper(l) && |buf| == l.capacity
    ensures var m := Appended(l, buf);
      && Proper(m) && From(m) == From(l) && To(m) == To(l) && Start(m) == Start(l)
      && Line(m.memory) == Line(l.memory) + buf && Front(m, |l.cells|) == Front(l, |l.cells|)
  {
    assert (l.memory + [buf])[..|l.memory|] == l.memory;
  }

  // ---------------------------------------------------------------- stepping through space

  /** Where SpaceStepper starts: at the block where data ends, or behind it if that is full. */
  function Start(l: Layout): (j: nat) {
    if l.end < |l.cells| && Space(l.cells[l.end], l.capacity) == 0 then l.end + 1 else l.end
  }

  lemma StartFront(l: Layout)
    requires Proper(l)
    ensures Start(l) <= |l.cells| && To(l) == Front(l, Start(l))
  {
  }

  /** Block j, from the stepper's on, has space, which lies where its front says. */
  lemma StepRoom(l: Layout, j: nat, n: nat)
    requires Proper(l) && Start(l) <= j < |l.cells| && n <= Space(l.cells[j], l.capacity)
    ensures Space(l.cells[j], l.capacity) > 0 && Front(l, j) + n <= Top(l) == |Line(l.memory)|
    ensures n == Space(l.cells[j], l.capacity) ==> Front(l, j + 1) == Front(l, j) + n
  {
    LineSize(l.memory, l.capacity);
    TimesLess(l.base + j, l.base + |l.cells|, l.capacity);
    assert j + 1 < |l.cells| ==> Fits(l.cells[j + 1], j + 1, l.end, l.capacity);
  }

  /** Data now ends n bytes further on, in block j. */
  ghost function Committed(l: Layout, j: nat, n: nat): (m: Layout)
    requires j < |l.cells|
  {
    l.(cells := l.cells[j := l.cells[j].(len := l.cells[j].len + n)], end := j)
  }

  lemma CommittedProper(l: Layout, n: nat)
    requires Proper(l) && Start(l) < |l.cells| && 0 < n <= Space(l.cells[Start(l)], l.capacity)
    ensures var m := Committed(l, Start(l), n);
      && Proper(m) && From(m) == From(l) && To(m) == To(l) + n == Front(m, Start(m)) <= |Line(l.memory)|
      && (n == Space(l.cells[Start(l)], l.capacity) ==> Start(m) == Start(l) + 1)
  {
    StepRoom(l, Start(l), n);
    StartFront(l);
    StartFront(Committed(l, Start(l), n));
  }

  /** Where there is space, the stepper's first block has some. */
  lemma RoomAtStart(l: Layout)
    requires Proper(l) && To(l) < |Line(l.memory)|
    ensures Start(l) < |l.cells| && Space(l.cells[Start(l)], l.capacity) > 0
  {
    StartFront(l);
    Bounds(l);
    StepRoom(l, Start(l), 0);
  }

  // ---------------------------------------------------------------- draining

  /** The first block has given up n bytes. */
  ghost function Shortened(l: Layout, n: nat): (m: Layout)
    requires l.cells != [] && n <= l.cells[0].len
  {
    l.(cells := l.cells[0 := Cell(l.cells[0].offset + n, l.cells[0].len - n)])
  }

  /** The first block is gone. */
  ghost function Dropped(l: Layout): (m: Layout)
    requires l.cells != []
  {
    l.(base := l.base + 1, cells := l.cells[1..], end := if l.end > 0 then l.end - 1 else 0)
  }

  predicate UsedUp(c: Cell, capacity: nat) {
    c.len == 0 && Space(c, capacity) == 0
  }

  /** Draining n bytes of the first block, which is dropped if that uses it up. */
  ghost function Drained(l: Layout, n: nat): (m: Layout)
    requires l.cells != [] && n <= l.cells[0].len
  {
    var m := Shortened(l, n);
    if UsedUp(m.cells[0], l.capacity) then Dropped(m) else m
  }

  /** How much the first block gives up of a drain. */
  function Share(l: Layout, size: nat): (n: nat)
    requires l.cells != []
  {
    if l.cells[0].len < size then l.cells[0].len else size
  }

  lemma DrainedProper(l: Layout, size: nat)
    requires Proper(l) && 0 < size <= To(l) - From(l)
    ensures l.cells != [] && 0 < Share(l, size)
    ensures var m := Drained(l, Share(l, size));
      && Proper(m) && From(m) == From(l) + Share(l, size) && To(m) == To(l)
      && (From(m) < To(m) ==> m.base + m.end == l.base + l.end)
  {
    Bounds(l);
    var m := Shortened(l, Share(l, size));
    if UsedUp(m.cells[0], l.capacity) {
      DroppedProper(l);
      assert Dropped(m) == Dropped(l);
    } else {
      ShortenedProper(l, Share(l, size));
    }
  }

  lemma ShortenedProper(l: Layout, n: nat)
    requires Proper(l) && l.cells != [] && n <= l.cells[0].len
    requires (l.end == 0 || n < l.cells[0].len) && l.cells[0].offset + n < l.capacity
    ensures var m := Shortened(l, n); Proper(m) && From(m) == From(l) + n && To(m) == To(l)
  {
    var m := Shortened(l, n);
    assert Fits(l.cells[0], 0, l.end, l.capacity);
    forall i | 0 <= i < |m.cells|
      ensures Fits(m.cells[i], i, m.end, m.capacity)
    {
      assert Fits(l.cells[i], i, l.end, l.capacity);
    }
  }

  lemma DroppedProper(l: Layout)
    requires Proper(l) && l.cells != [] && l.cells[0].offset + l.cells[0].len == l.capacity
    ensures var m := Dropped(l);
      && Proper(m) && From(m) == From(l) + l.cells[0].len && To(m) == To(l)
      && (l.end > 0 ==> m.base + m.end == l.base + l.end) && (l.end == 0 ==> From(m) == To(m))
  {
    var m := Dropped(l);
    forall i | 0 <= i < |m.cells|
      ensures Fits(m.cells[i], i, m.end, m.capacity)
    {
      assert Fits(l.cells[i + 1], i + 1, l.end, l.capacity);
    }
    assert |l.cells| > 1 ==> Fits(l.cells[1], 1, l.end, l.capacity);
  }

  /** An empty list whose first block is all free again. */
  ghost function Reset(l: Layout): (m: Layout)
    requires l.cells != []
  {
    l.(cells := l.cells[0 := l.cells[0].(offset := 0)])
  }

  lemma ResetProper(l: Layout)
    requires Proper(l) && l.cells != [] && From(l) == To(l)
    ensures Proper(Reset(l)) && From(Reset(l)) == To(Reset(l)) <= From(l)
  {
    Bounds(l);
  }

  // ---------------------------------------------------------------- looking at data

  /** How far the data of the first i blocks reaches. */
  ghost function Seen(l: Layout, i: nat): (p: nat) {
    if i == 0 then From(l) else if i <= l.end then Times(l.base + i, l.capacity) else To(l)
  }

  lemma SeenMore(l: Layout, i: nat)
    requires Proper(l) && i < |l.cells| && l.cells[i].len > 0
    ensures Seen(l, i) == Times(l.base + i, l.capacity) + l.cells[i].offset
    ensures Seen(l, i + 1) == Seen(l, i) + l.cells[i].len && l.cells[i].offset + l.cells[i].len <= l.capacity
  {
  }

  lemma SeenAll(l: Layout, i: nat)
    requires Proper(l) && i <= |l.cells| && (i < |l.cells| ==> l.cells[i].len == 0)
    ensures Seen(l, i) == To(l)
  {
    Bounds(l);
    if i < |l.cells| {
      assert Fits(l.cells[i], i, l.end, l.capacity);
    }
  }

  lemma SeenAfter(l: Layout, i: nat)
    requires Proper(l) && i < |l.cells| && l.cells[i].len == 0
    ensures Seen(l, i + 1) == To(l)
  {
    assert Fits(l.cells[i], i, l.end, l.capacity);
  }

  // ---------------------------------------------------------------- pieces of memory

  /** A stretch of the memory of one block. */
  datatype Piece = Piece(number: nat, start: nat, len: nat)

  /** Where a piece starts on the line. */
  ghost function Place(p: Piece, capacity: nat): (at: nat) {
    Times(p.number, capacity) + p.start
  }

  /** The pieces are the stretch of the line from `a` to `b`, in order and without a gap. */
  ghost predicate Gapless(pieces: seq<Piece>, capacity: nat, a: nat, b: nat) {
    if pieces == [] then a == b
    else
      var n := |pieces| - 1;
      && Gapless(pieces[..n], capacity, a, Place(pieces[n], capacity))
      && pieces[n].start + pieces[n].len <= capacity && pieces[n].len > 0
      && b == Place(pieces[n], capacity) + pieces[n].len
  }

  lemma {:induction false} GaplessMore(pieces: seq<Piece>, p: Piece, capacity: nat, a: nat, b: nat)
    requires Gapless(pieces, capacity, a, b) && Place(p, capacity) == b && p.start + p.len <= capacity && p.len > 0
    ensures Gapless(pieces + [p], capacity, a, b + p.len)
  {
    assert (pieces + [p])[..|pieces|] == pieces;
  }

  /** Where the k-th piece starts, or where the last one ends. */
  ghost function Reach(pieces: seq<Piece>, capacity: nat, b: nat, k: nat): (at: nat)
    requires k <= |pieces|
  {
    if k == |pieces| then b else Place(pieces[k], capacity)
  }

  lemma {:induction false} GaplessAt(pieces: seq<Piece>, capacity: nat, a: nat, b: nat, k: nat)
    requires Gapless(pieces, capacity, a, b) && k <= |pieces|
    ensures a <= Reach(pieces, capacity, b, k) <= b && (k == 0 ==> Reach(pieces, capacity, b, k) == a)
    ensures k < |pieces| ==> pieces[k].len > 0 && pieces[k].start + pieces[k].len <= capacity
    ensures k < |pieces| ==>
              Reach(pieces, capacity, b, k + 1) == Place(pieces[k], capacity) + pieces[k].len <= b
  {
    if pieces != [] {
      var n := |pieces| - 1;
      GaplessAt(pieces[..n], capacity, a, Place(pieces[n], capacity), if k <= n then k else n);
    }
  }

  /** A piece that lies past the drained part and on the line is of a block in the list. */
  lemma Located(l: Layout, p: Piece)
    requires Proper(l) && From(l) <= Place(p, l.capacity) && Place(p, l.capacity) + p.len <= |Line(l.memory)|
    requires p.len > 0 && p.start + p.len <= l.capacity
    ensures l.base <= p.number < |l.memory|
  {
    LineSize(l.memory, l.capacity);
    if p.number < l.base {
      TimesLess(p.number, l.base, l.capacity);
    } else if p.number > |l.memory| {
      TimesLess(|l.memory|, p.number, l.capacity);
    }
  }

  /** The memory of a block is what lies at its place on the line. */
  lemma {:induction false} LineAt(memory: seq<seq<Byte>>, c: nat, k: nat, a: nat, b: nat)
    requires Sized(memory, c) && k < |memory| && a <= b <= c
    ensures Times(k, c) + b <= |Line(memory)| && Line(memory)[Times(k, c) + a..Times(k, c) + b] == memory[k][a..b]
  {
    var n := |memory| - 1;
    LineSize(memory[..n], c);
    if k < n {
      LineAt(memory[..n], c, k, a, b);
      TimesLess(k, n, c);
      FrontSlice(Line(memory[..n]), memory[n], Times(k, c) + a, Times(k, c) + b);
    } else {
      BackSlice(Line(memory[..n]), memory[n], a, b);
    }
  }

  lemma FrontSlice(s: seq<Byte>, t: seq<Byte>, a: nat, b: nat)
    requires a <= b <= |s|
    ensures (s + t)[a..b] == s[a..b]
  {
  }

  lemma BackSlice(s: seq<Byte>, t: seq<Byte>, a: nat, b: nat)
    requires a <= b <= |t|
    ensures (s + t)[|s| + a..|s| + b] == t[a..b]
  {
  }

  /** The data of block i is what lies between where the data of the blocks before and that of those
      up to it reaches.
   */
  lemma CellOnLine(l: Layout, i: nat)
    requires Proper(l) && i < |l.cells|
    ensures var c := l.cells[i]; var p := Seen(l, i); var q := Seen(l, i + 1);
      && p <= q <= |Line(l.memory)| && c.offset + c.len <= |l.memory[l.base + i]|
      && Line(l.memory)[p..q] == l.memory[l.base + i][c.offset..c.offset + c.len]
  {
    var c := l.cells[i];
    LineAt(l.memory, l.capacity, l.base + i, c.offset, c.offset + c.len);
    if c.len > 0 {
      SeenMore(l, i);
    } else {
      SeenAll(l, i);
      SeenAfter(l, i);
      Bounds(l);
    }
  }

  // ---------------------------------------------------------------- writing

  /** `s` with `bytes` written over it from position p. */
  function Patched(s: seq<Byte>, p: nat, bytes: seq<Byte>): (r: seq<Byte>)
    requires p + |bytes| <= |s|
  {
    s[..p] + bytes + s[p + |bytes|..]
  }

  /** The memory of block number k from `start` on now holds `bytes`. */
  ghost function Stored(l: Layout, k: nat, start: nat, bytes: seq<Byte>): (m: Layout)
    requires k < |l.memory| && start + |bytes| <= |l.memory[k]|
  {
    l.(memory := l.memory[k := Patched(l.memory[k], start, bytes)])
  }

  lemma StoredProper(l: Layout, k: nat, start: nat, bytes: seq<Byte>)
    requires Proper(l) && k < |l.memory| && start + |bytes| <= l.capacity
    ensures |l.memory[k]| == l.capacity && Times(k, l.capacity) + l.capacity <= |Line(l.memory)|
    ensures var m := Stored(l, k, start, bytes);
      && Proper(m) && From(m) == From(l) && To(m) == To(l)
      && Line(m.memory) == Patched(Line(l.memory), Times(k, l.capacity) + start, bytes)
  {
    LinePatched(l.memory, l.capacity, k, start, bytes);
    StoredKept(l, k, start, bytes);
  }

  lemma StoredKept(l: Layout, k: nat, start: nat, bytes: seq<Byte>)
    requires Proper(l) && k < |l.memory| && start + |bytes| <= |l.memory[k]|
    ensures var m := Stored(l, k, start, bytes); Proper(m) && From(m) == From(l) && To(m) == To(l)
  {
  }

  /** Writing into the memory of a block is writing on the line. */
  lemma {:induction false} LinePatched(memory: seq<seq<Byte>>, c: nat, k: nat, start: nat, bytes: seq<Byte>)
    requires Sized(memory, c) && k < |memory| && start + |bytes| <= c
    ensures Times(k, c) + c <= |Line(memory)|
    ensures Line(memory[k := Patched(memory[k], start, bytes)]) == Patched(Line(memory), Times(k, c) + start, bytes)
  {
    var n := |memory| - 1;
    var front, last := memory[..n], memory[n];
    var after := memory[k := Patched(memory[k], start, bytes)];
    LineSize(front, c);
    if k < n {
      TimesLess(k, n, c);
      LinePatched(front, c, k, start, bytes);
      assert after[..n] == front[k := Patched(front[k], start, bytes)];
      PatchedFront(Line(front), last, Times(k, c) + start, bytes);
    } else {
      assert after[..n] == front;
      PatchedBack(Line(front), last, start, bytes);
    }
  }

  lemma PatchedFront(s: seq<Byte>, t: seq<Byte>, p: nat, bytes: seq<Byte>)
    requires p + |bytes| <= |s|
    ensures Patched(s + t, p, bytes) == Patched(s, p, bytes) + t
  {
  }

  lemma PatchedBack(s: seq<Byte>, t: seq<Byte>, p: nat, bytes: seq<Byte>)
    requires p + |bytes| <= |t|
    ensures Patched(s + t, |s| + p, bytes) == s + Patched(t, p, bytes)
  {
  }
}
