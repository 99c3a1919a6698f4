/** The freelist of src/aws/proxy/freelist.h. Each operation is one atomic step. */
module Freelists {
  import opened Blocks
  import opened Common

  /** All blocks of the list are in the set. */
  ghost predicate Within(bs: seq<Block>, all: set<Block>) {
    forall i :: 0 <= i < |bs| ==> bs[i] in all
  }

  /** The blocks have this home and this much memory. */
  ghost predicate Housed(all: set<Block>, home: object, capacity: nat)
    reads all`home, all`buf
  {
    forall b :: b in all ==> b.home == home && |b.buf| == capacity
  }

  lemma SumOfSizes(a: set<Block>, b: set<Block>)
    requires a !! b
    ensures |a + b| == |a| + |b|
  {
  }

  /** Which blocks a buffer and the freelist have, and which have ever been allocated. */
  datatype Holdings = Holdings(list: set<Block>, pool: set<Block>, minted: set<Block>)

  ghost predicate Has(h: Holdings, b: Block) {
    b in h.list || b in h.pool
  }

  /** No block is lost, and all blocks that were not there before are newly allocated. */
  ghost predicate Conserved(h: Holdings, k: Holdings) {
    && h.minted <= k.minted
    && forall b {:trigger Has(k, b)} :: b in k.minted ==> (Has(k, b) <==> Has(h, b) || b !in h.minted)
  }

  /** A block goes from the list to the freelist. */
  lemma Moved(h: Holdings, b: Block)
    requires b in h.list
    ensures Conserved(h, Holdings(h.list - {b}, h.pool + {b}, h.minted + {b}))
  {
  }

  /** A block, from the freelist or new, joins the list. */
  lemma Gained(h: Holdings, b: Block)
    requires b in h.pool || b !in h.minted
    ensures Conserved(h, Holdings(h.list + {b}, h.pool - {b}, h.minted + {b}))
  {
  }

  lemma ConservedStep(h: Holdings, k: Holdings, m: Holdings)
    requires Conserved(h, k) && Conserved(k, m)
    ensures Conserved(h, m)
  {
    forall b | b in m.minted
      ensures Has(m, b) <==> Has(h, b) || b !in h.minted
    {
      assert b in k.minted ==> (Has(k, b) <==> Has(h, b) || b !in h.minted);
    }
  }

  class Freelist {
    const capacity: nat  // of every block
    var head: Block?
    var size: nat
    ghost var free: seq<Block>  // the chain from head
    ghost var pool: set<Block>  // its blocks
    ghost var minted: set<Block>  // all blocks ever allocated

    ghost predicate Valid()
      reads this, pool
    {
      forall key {:trigger Open(this, key)} :: Open(this, key) ==>
        && Within(free, pool) && |pool| == |free| == size && pool <= minted
        && Linked(free, head) && Housed(pool, this, capacity)
    }

    /** The blocks of the freelist are at home with it. */
    lemma Homes()
      requires Valid()
      ensures Housed(pool, this, capacity) && pool <= minted && (head != null ==> head in pool)
    {
      assert Open(this, 0);
    }

    constructor (capacity: nat)
      ensures Valid() && free == [] && pool == minted == {} && this.capacity == capacity
    {
      this.capacity := capacity;
      head, size, free, pool, minted := null, 0, [], {}, {};
    }

    /** A block in its initial state, now at home with `holder`: the last one given back, or a newly
        allocated one when none is waiting.
     */
    method New(ghost holder: object) returns (b: Block)
      requires Valid() && holder != this
      modifies this, head
      ensures Valid() && b.next == null && b.offset == 0 && b.len == 0
      ensures b.home == holder && |b.buf| == capacity
      ensures if old(free) == [] then fresh(b) && free == [] else old(free) == [b] + free
      ensures pool == old(pool) - {b} && minted == old(minted) + {b}
      ensures b in old(pool) || (b !in old(minted) && fresh(b))
    {
      assert Open(this, 0);
      if head == null {
        b := new Block(capacity);
        b.home, minted := holder, minted + {b};
      } else {
        b := head;
        ApartFrom(free, head, 0);
        DropLinked(free, head);
        Unlink(b, holder);
      }
    }

    method Unlink(b: Block, ghost holder: object)
      requires free != [] && b == head && size > 0
      modifies this`head, this`size, this`free, this`pool, b`next, b`offset, b`len, b`home
      ensures head == old(b.next) && size == old(size) - 1 && free == old(free)[1..] && pool == old(pool) - {b}
      ensures b.next == null && b.offset == 0 && b.len == 0 && b.home == holder
    {
      head := b.next;
      size := size - 1;
      free, pool := free[1..], pool - {b};
      b.next, b.offset, b.len, b.home := null, 0, 0, holder;
    }

    /** Puts a block at the front of the freelist. */
    method Delete(block: Block)
      requires Valid() && block.home != this && |block.buf| == capacity
      modifies this, block`next, block`home
      ensures Valid() && free == [block] + old(free) && pool == old(pool) + {block}
      ensures minted == old(minted) + {block}
    {
      assert Open(this, 0);
      block.next := head;
      JoinLinked([block], block, free, head);
      head := block;
      size := size + 1;
      free, pool, minted := [block] + free, pool + {block}, minted + {block};
      block.home := this;
    }

    /** Puts a whole chain in front of the freelist, in its own order. */
    method DeleteChain(chainHead: Block?, ghost chain: seq<Block>, ghost all: set<Block>, ghost holder: object)
      requires Valid() && holder != this && Linked(chain, chainHead)
      requires Within(chain, all) && |all| == |chain| && Housed(all, holder, capacity)
      modifies this, all`next, all`home
      ensures Valid() && free == chain + old(free) && pool == old(pool) + all
      ensures minted == old(minted) + all
    {
      if chainHead == null {
        assert chain + free == free && all == {};
        assert pool + all == pool && minted + all == minted;
        return;
      }
      assert Open(this, 0);
      SumOfSizes(pool, all);
      var count := Splice(chainHead, chain, all);
      Adopt(count, chain, all);
    }

    /** Makes the blocks of a chain the freelist's. */
    method Adopt(count: nat, ghost chain: seq<Block>, ghost all: set<Block>)
      modifies this`size, this`free, this`pool, this`minted, all`home
      ensures size == old(size) + count && free == chain + old(free)
      ensures pool == old(pool) + all && minted == old(minted) + all && forall b :: b in all ==> b.home == this
    {
      forall b | b in all {
        b.home := this;
      }
      size, free, pool, minted := size + count, chain + free, pool + all, minted + all;
    }

    /** Links the freelist's chain behind another, which becomes the freelist's head. */
    method Splice(chainHead: Block, ghost chain: seq<Block>, ghost all: set<Block>) returns (count: nat)
      requires Linked(free, head) && Within(free, pool) && Linked(chain, chainHead) && Within(chain, all) && pool !! all
      modifies this`head, all`next
      ensures head == chainHead && Linked(chain + free, head) && count == |chain|
    {
      var tail;
      count, tail := Last(chainHead, chain);
      ApartFrom(chain, chainHead, |chain| - 1);
      LinkedNext(chain, chainHead);
      tail.next := head;
      JoinLinked(chain, chainHead, free, head);
      head := chainHead;
    }

    /** The length of a chain and its last block. */
    method Last(chainHead: Block, ghost chain: seq<Block>) returns (count: nat, tail: Block)
      requires Linked(chain, chainHead)
      ensures count == |chain| > 0 && tail == chain[count - 1]
    {
      count, tail := 1, chainHead;
      while tail.next != null
        invariant 1 <= count <= |chain| && tail == chain[count - 1]
        decreases |chain| - count
      {
        assert LinkAt(chain, count - 1);
        tail, count := tail.next, count + 1;
      }
      assert LinkAt(chain, count - 1);
    }

    /** How many blocks are waiting to be reused. */
    function Size(): (n: nat)
      requires Valid()
      reads this, pool
      ensures n == |free| == |pool|
    {
      assert Open(this, 0);
      size
    }
  }
}
