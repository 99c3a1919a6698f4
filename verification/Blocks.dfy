/** The storage blocks of src/aws/proxy/buffer.h and the lists they form. */
module Blocks {
  import opened Common

  class Block {
    var next: Block?
    var offset: nat     // start of the consumable data
    var len: nat        // length of the consumable data
    var buf: seq<Byte>  // the memory behind the header
    ghost var home: object?  // the buffer or the freelist whose list the block is in

    constructor (capacity: nat)
      ensures next == null && offset == 0 && len == 0 && |buf| == capacity && home == null
    {
      next, offset, len, home := null, 0, 0, null;
      var bytes: seq<Byte> := seq(capacity, _ => 0);
      buf := bytes;
    }
  }

  function At(bs: seq<Block>, i: int): (b: Block?) {
    if 0 <= i < |bs| then bs[i] else null
  }

  ghost predicate LinkAt(bs: seq<Block>, i: nat)
    requires i < |bs|
    reads {bs[i]}`next
  {
    bs[i].next == At(bs, i + 1)
  }

  /** `bs` is the whole list reached from `head` through the `next` pointers. */
  ghost predicate Linked(bs: seq<Block>, head: Block?)
    reads bs`next
  {
    head == At(bs, 0) && forall i {:trigger LinkAt(bs, i)} :: 0 <= i < |bs| ==> LinkAt(bs, i)
  }

  /** A chain that ends visits no block twice. */
  lemma {:induction false} NoRepeat(bs: seq<Block>, head: Block?, i: nat, j: nat)
    requires Linked(bs, head) && i < j < |bs|
    ensures bs[i] != bs[j]
    decreases |bs| - j
  {
    assert LinkAt(bs, i) && LinkAt(bs, j);
    if j + 1 < |bs| {
      NoRepeat(bs, head, i + 1, j + 1);
    }
  }

  lemma ApartFrom(bs: seq<Block>, head: Block?, k: nat)
    requires Linked(bs, head) && k < |bs|
    ensures forall i :: 0 <= i < |bs| && i != k ==> bs[i] != bs[k]
  {
    forall i | 0 <= i < |bs| && i != k
      ensures bs[i] != bs[k]
    {
      if i < k {
        NoRepeat(bs, head, i, k);
      } else {
        NoRepeat(bs, head, k, i);
      }
    }
  }

  /** The list without its first block. */
  lemma DropLinked(bs: seq<Block>, head: Block?)
    requires bs != [] && Linked(bs, head)
    ensures Linked(bs[1..], bs[0].next)
  {
    assert LinkAt(bs, 0);
    forall i | 0 <= i < |bs| - 1
      ensures LinkAt(bs[1..], i)
    {
      assert LinkAt(bs, i + 1);
    }
  }

  lemma LinkedNext(bs: seq<Block>, head: Block?)
    requires Linked(bs, head)
    ensures forall i {:trigger bs[i].next} :: 0 <= i < |bs| - 1 ==> bs[i].next == bs[i + 1]
  {
    forall i | 0 <= i < |bs| - 1
      ensures bs[i].next == bs[i + 1]
    {
      assert LinkAt(bs, i);
    }
  }

  /** Two lists, the last block of the first having been linked to the second. */
  lemma JoinLinked(bs: seq<Block>, head: Block?, cs: seq<Block>, headOfRest: Block?)
    requires bs != [] && head == bs[0] && Linked(cs, headOfRest)
    requires forall i {:trigger bs[i].next} :: 0 <= i < |bs| - 1 ==> bs[i].next == bs[i + 1]
    requires bs[|bs| - 1].next == headOfRest
    ensures Linked(bs + cs, head)
  {
    var all := bs + cs;
    forall i | 0 <= i < |all|
      ensures LinkAt(all, i)
    {
      if i >= |bs| {
        assert LinkAt(cs, i - |bs|);
      }
    }
  }
}
