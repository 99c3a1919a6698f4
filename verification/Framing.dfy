/** The response framing of src/communication: encoding_utils.cc, framing_utils.cc and
    uncompressed.cc. The data writer and reader are those of the QUICHE library, by their
    documented behaviour: an operation that does not fit changes nothing, and a failed read
    moves to the end.
 */
module Framing {
  import opened Common

  type Bytes = seq<Byte>
  type Compression = x: int | 0 <= x < 32

  const INT_MAX := 0x7FFF_FFFF

  // ---------------------------------------------------------------- numbers

  /** A 32-bit number in network byte order. */
  function U32(n: nat): (b: Bytes)
    requires n < 0x1_0000_0000
    ensures |b| == 4
  {
    [n / 0x100_0000, n / 0x1_0000 % 0x100, n / 0x100 % 0x100, n % 0x100]
  }

  function FromU32(b: Bytes): (n: nat)
    requires |b| == 4
    ensures n < 0x1_0000_0000
  {
    var b0: int, b1: int, b2: int, b3: int := b[0], b[1], b[2], b[3];
    b0 * 0x100_0000 + b1 * 0x1_0000 + b2 * 0x100 + b3
  }

  lemma U32RoundTrip(n: nat, b: Bytes)
    requires n < 0x1_0000_0000 && |b| == 4
    ensures FromU32(U32(n)) == n && U32(FromU32(b)) == b
  {
    U32Value(n);
    U32Bytes(b);
  }

  lemma U32Value(n: nat)
    requires n < 0x1_0000_0000
    ensures FromU32(U32(n)) == n
  {
    Divided(n, n / 0x100, n % 0x100);
    Divided(n / 0x100, n / 0x1_0000, n / 0x100 % 0x100);
    Divided(n / 0x1_0000, n / 0x100_0000, n / 0x1_0000 % 0x100);
  }

  lemma U32Bytes(b: Bytes)
    requires |b| == 4
    ensures U32(FromU32(b)) == b
  {
    var m := FromU32(b);
    var b0: int, b1: int, b2: int, b3: int := b[0], b[1], b[2], b[3];
    Divided(m, b0 * 0x1_0000 + b1 * 0x100 + b2, b3);
    Divided(m / 0x100, b0 * 0x100 + b1, b2);
    Divided(m / 0x1_0000, b0, b1);
  }

  /** The most significant byte comes first. */
  lemma NetworkOrder(n: nat)
    requires n < 0x1_0000_0000
    ensures var b := U32(n); b[0] as int * 0x100_0000 + b[1] as int * 0x1_0000 + b[2] as int * 0x100 + b[3] as int == n
  {
    U32Value(n);
  }

  /** A number without its last byte. */
  lemma Divided(m: nat, q: nat, r: nat)
    requires m == q * 0x100 + r && r < 0x100
    ensures m / 0x100 == q && m % 0x100 == r
    ensures m / 0x100 / 0x100 == m / 0x1_0000 && m / 0x1_0000 / 0x100 == m / 0x100_0000
  {
  }

  /** What is left of a number when it is stored in an int. */
  function ToInt(n: int): (i: int)
    ensures -0x8000_0000 <= i <= INT_MAX
    ensures 0 <= n <= INT_MAX ==> i == n
  {
    (n + 0x8000_0000) % 0x1_0000_0000 - 0x8000_0000
  }

  // ---------------------------------------------------------------- sizes

  ghost predicate PowerOfTwo(n: nat) {
    n == 1 || (n > 1 && n % 2 == 0 && PowerOfTwo(n / 2))
  }

  /** The least power of two from p on that is at least n. */
  function Ceil(n: nat, p: nat): (c: nat)
    requires p > 0
    decreases n - p
  {
    if n <= p then p else Ceil(n, 2 * p)
  }

  lemma {:induction false} CeilLeast(n: nat, p: nat, q: nat)
    requires PowerOfTwo(p) && PowerOfTwo(q) && (p == 1 || p / 2 < n)
    ensures PowerOfTwo(Ceil(n, p)) && n <= Ceil(n, p) && (Ceil(n, p) == 1 || Ceil(n, p) / 2 < n)
    ensures n <= q ==> Ceil(n, p) <= q
    decreases n - p
  {
    if n <= p {
      if n <= q < p {
        Apart(q, p);
      }
    } else {
      CeilLeast(n, 2 * p, q);
    }
  }

  /** Of two powers of two, the smaller is at most half of the other. */
  lemma {:induction false} Apart(q: nat, p: nat)
    requires PowerOfTwo(q) && PowerOfTwo(p) && q < p
    ensures q <= p / 2
  {
    if q > 1 {
      Apart(q / 2, p / 2);
    }
  }

  lemma Doubled(n: nat, m: nat)
    requires PowerOfTwo(n) && m == 2 * n
    ensures PowerOfTwo(m)
  {
    assert m / 2 == n;
  }

  lemma Fourfold(n: nat, m: nat)
    requires PowerOfTwo(n) && m == 4 * n
    ensures PowerOfTwo(m)
  {
    Doubled(n, 2 * n);
    Doubled(2 * n, m);
  }

  lemma Sixteenfold(n: nat, m: nat)
    requires PowerOfTwo(n) && m == 16 * n
    ensures PowerOfTwo(m)
  {
    Fourfold(n, 4 * n);
    Fourfold(4 * n, m);
  }

  lemma LargePowers()
    ensures PowerOfTwo(0x4000_0000) && PowerOfTwo(0x8000_0000) && PowerOfTwo(0x1_0000_0000)
  {
    Sixteenfold(1, 0x10);
    Sixteenfold(0x10, 0x100);
    Sixteenfold(0x100, 0x1000);
    Sixteenfold(0x1000, 0x1_0000);
    Sixteenfold(0x1_0000, 0x10_0000);
    Sixteenfold(0x10_0000, 0x100_0000);
    Sixteenfold(0x100_0000, 0x1000_0000);
    Fourfold(0x1000_0000, 0x4000_0000);
    Doubled(0x4000_0000, 0x8000_0000);
    Doubled(0x8000_0000, 0x1_0000_0000);
  }

  /** Powers of two from 2^30 on. */
  lemma PowerSteps(n: nat)
    requires PowerOfTwo(n)
    ensures n <= 0x4000_0000 || n == 0x8000_0000 || n == 0x1_0000_0000 || (n % 2 == 0 && n / 2 >= 0x1_0000_0000)
  {
    LargePowers();
    if 0x1_0000_0000 < n {
      Apart(0x1_0000_0000, n);
    } else if 0x8000_0000 < n {
      Apart(0x8000_0000, n);
    } else if 0x4000_0000 < n {
      Apart(0x4000_0000, n);
    }
  }

  /** A power of two stored in an int is itself, the least int, or 0. */
  lemma {:induction false} PowerToInt(n: nat)
    requires PowerOfTwo(n)
    ensures if n <= 0x4000_0000 then ToInt(n) == n
            else if n == 0x8000_0000 then ToInt(n) == -0x8000_0000 else ToInt(n) == 0
  {
    PowerSteps(n);
    if 0x1_0000_0000 < n {
      PowerToInt(n / 2);
      TwiceToInt(n / 2);
    }
  }

  lemma TwiceToInt(h: nat)
    requires ToInt(h) == 0
    ensures ToInt(2 * h) == 0
  {
  }

  function GetEncodedDataSize(payload: nat, least: nat): (size: nat) {
    var c := Ceil(payload + 5, 1);
    if c < least then least else c
  }

  /** The size is the least power of two that holds the payload and five bytes, or the minimum if
      that is more.
   */
  lemma EncodedDataSize(payload: nat, least: nat, q: nat)
    requires PowerOfTwo(least)
    ensures var size := GetEncodedDataSize(payload, least);
      && PowerOfTwo(size) && payload + 5 <= size && least <= size && (size == least || size / 2 < payload + 5)
      && (PowerOfTwo(q) && payload + 5 <= q && least <= q ==> size <= q)
  {
    CeilLeast(payload + 5, 1, least);
    if PowerOfTwo(q) {
      CeilLeast(payload + 5, 1, q);
    }
  }

  // ---------------------------------------------------------------- reading and writing

  function Zeros(n: nat): (b: Bytes)
    ensures |b| == n
  {
    seq(n, _ => 0)
  }

  class DataWriter {
    const size: nat
    var written: Bytes  // the front of the buffer

    constructor (size: nat)
      ensures this.size == size && written == []
    {
      this.size, written := size, [];
    }

    method Write(b: Bytes) returns (ok: bool)
      modifies this
      ensures ok == (|old(written)| + |b| <= size)
      ensures written == if ok then old(written) + b else old(written)
    {
      ok := |written| + |b| <= size;
      if ok {
        written := written + b;
      }
    }

    /** Fills what is left of the buffer. */
    method WritePadding()
      requires |written| <= size
      modifies this
      ensures written == old(written) + Zeros(size - |old(written)|)
    {
      written := written + Zeros(size - |written|);
    }
  }

  class DataReader {
    var left: Bytes  // what has not been read

    constructor (data: Bytes)
      ensures left == data
    {
      left := data;
    }

    method Read(n: nat) returns (b: Option<Bytes>)
      modifies this
      ensures b.Some? <==> n <= |old(left)|
      ensures b.Some? ==> |b.value| == n && old(left) == b.value + left
      ensures b.None? ==> left == []
    {
      if n <= |left| {
        b, left := Some(left[..n]), left[n..];
      } else {
        b, left := None, [];
      }
    }
  }

  // ---------------------------------------------------------------- payloads

  datatype Decoded = Decoded(version: nat, compression: Compression, data: Bytes)

  /** The first byte, the size of the data, the data. */
  function Frame(d: Decoded): (b: Bytes)
    requires d.version < 8 && |d.data| < 0x1_0000_0000
    ensures |b| == 5 + |d.data|
  {
    [d.version * 32 + d.compression] + U32(|d.data|) + d.data
  }

  /** Nothing is said of an array of a negative size. */
  datatype Encoding = Encoded(payload: Bytes) | TooLarge | Undefined

  /** Unless the sizes overflow an int, succeeds exactly if the frame fits, and then is the frame with
      zeros behind it. In any case the result starts with the frame exactly if that fits.
   */
  method EncodeResponsePayload(compression: Compression, data: Bytes, size: int) returns (r: Encoding)
    requires -0x8000_0000 <= size <= INT_MAX
    ensures r.TooLarge? <==> size < ToInt(5 + |data|)
    ensures r.Undefined? <==> ToInt(5 + |data|) <= size < 0
    ensures |data| + 5 <= INT_MAX ==> (r.Encoded? <==> |data| + 5 <= size)
    ensures r.Encoded? ==> |r.payload| == size
    ensures |data| + 5 <= size ==>
              r == Encoded(Frame(Decoded(0, compression, data)) + Zeros(size - (|data| + 5)))
    ensures |data| + 5 <= size ==>
              var p := r.payload;
              && p[0] == compression && p[5..5 + |data|] == data
              && p[1] as int * 0x100_0000 + p[2] as int * 0x1_0000 + p[3] as int * 0x100 + p[4] as int == |data|
  {
    if size < ToInt(5 + |data|) {
      return TooLarge;
    }
    if size < 0 {
      return Undefined;
    }
    var payload := WriteFrame(compression, data, size);
    if |data| + 5 <= size {
      FrameBytes(Decoded(0, compression, data), payload);
    }
    return Encoded(payload);
  }

  /** A part that does not fit is left out. */
  method WriteFrame(compression: Compression, data: Bytes, size: nat) returns (payload: Bytes)
    ensures |payload| == size
    ensures |data| + 5 <= size < 0x1_0000_0000 ==>
              payload == Frame(Decoded(0, compression, data)) + Zeros(size - (|data| + 5))
  {
    var writer := new DataWriter(size);
    var length := U32(|data| % 0x1_0000_0000);
    var ok := writer.Write([compression]);
    ok := writer.Write(length);
    ok := writer.Write(data);
    if |data| + 5 <= size < 0x1_0000_0000 {
      FrameParts(compression, data);
    }
    writer.WritePadding();
    return writer.written;
  }

  lemma FrameParts(compression: Compression, data: Bytes)
    requires |data| < 0x1_0000_0000
    ensures [] + [compression] + U32(|data| % 0x1_0000_0000) + data == Frame(Decoded(0, compression, data))
  {
    assert |data| % 0x1_0000_0000 == |data|;
  }

  /** What starts with a frame, byte by byte. */
  lemma FrameBytes(d: Decoded, p: Bytes)
    requires d.version < 8 && |d.data| < 0x1_0000_0000 && Frame(d) <= p
    ensures |p| >= 5 + |d.data| && p[0] == d.version * 32 + d.compression && p[5..5 + |d.data|] == d.data
    ensures p[1] as int * 0x100_0000 + p[2] as int * 0x1_0000 + p[3] as int * 0x100 + p[4] as int == |d.data|
  {
    var b := U32(|d.data|);
    NetworkOrder(|d.data|);
    assert Frame(d) == [d.version * 32 + d.compression] + (b + d.data);
    assert p[1] == b[0] && p[2] == b[1] && p[3] == b[2] && p[4] == b[3];
  }

  /** Succeeds exactly on what starts with a frame, and tells which. */
  method DecodeRequestPayload(payload: Bytes) returns (r: Option<Decoded>)
    ensures r.Some? <==>
            && |payload| >= 5 && var p := payload;
            |p| >= 5 + p[1] as int * 0x100_0000 + p[2] as int * 0x1_0000 + p[3] as int * 0x100 + p[4] as int
    ensures r.Some? ==> r.value.version < 8 && |r.value.data| < 0x1_0000_0000 && Frame(r.value) <= payload
    ensures r.Some? ==>
              var p, n := payload, |r.value.data|;
              && p[0] == r.value.version * 32 + r.value.compression && p[5..5 + n] == r.value.data
              && p[1] as int * 0x100_0000 + p[2] as int * 0x1_0000 + p[3] as int * 0x100 + p[4] as int == n
  {
    var reader := new DataReader(payload);
    var first := reader.Read(1);
    if first.None? {
      return None;
    }
    var size := reader.Read(4);
    if size.None? {
      return None;
    }
    assert size.value == payload[1..5];
    var data := reader.Read(FromU32(size.value));
    if data.None? {
      return None;
    }
    U32RoundTrip(0, size.value);
    assert payload == first.value + size.value + data.value + reader.left;
    r := Some(Decoded(first.value[0] / 32, first.value[0] % 32, data.value));
    FrameBytes(r.value, payload);
  }

  /** A payload starts with at most one frame, so decoding gives back what was encoded whatever
      follows it.
   */
  lemma FrameUnique(d: Decoded, e: Decoded, payload: Bytes)
    requires d.version < 8 && |d.data| < 0x1_0000_0000 && Frame(d) <= payload
    requires e.version < 8 && |e.data| < 0x1_0000_0000 && Frame(e) <= payload
    ensures d == e
    ensures var p := payload;
      |p| >= 5 + p[1] as int * 0x100_0000 + p[2] as int * 0x1_0000 + p[3] as int * 0x100 + p[4] as int
  {
    assert payload[0] == Frame(d)[0] == Frame(e)[0];
    assert Frame(d)[1..5] == U32(|d.data|) == payload[1..5];
    assert Frame(e)[1..5] == U32(|e.data|) == payload[1..5];
    U32RoundTrip(|d.data|, payload[1..5]);
    U32RoundTrip(|e.data|, payload[1..5]);
    assert Frame(d)[5..] == d.data == payload[5..5 + |d.data|];
    assert Frame(e)[5..] == e.data == payload[5..5 + |e.data|];
  }

  /** A response encoded to the size that is computed for it is accepted and decodes to itself,
      exactly if it fits that size as an int. For a minimum that is a power of two, this is so
      exactly if data and minimum do not exceed 2^30 bytes, the preamble included; otherwise nothing
      is decoded.
   */
  method Respond(compression: Compression, data: Bytes, least: nat) returns (r: Option<Decoded>)
    ensures r == Some(Decoded(0, compression, data)) <==> |data| + 5 <= ToInt(GetEncodedDataSize(|data|, least))
    ensures PowerOfTwo(least) ==>
              r == if |data| + 5 <= 0x4000_0000 && least <= 0x4000_0000
                   then Some(Decoded(0, compression, data))
                   else None
  {
    var size := ToInt(GetEncodedDataSize(|data|, least));
    if PowerOfTwo(least) {
      ComputedSize(|data|, least);
    }
    var encoded := EncodeResponsePayload(compression, data, size);
    if !encoded.Encoded? {
      return None;
    }
    r := DecodeRequestPayload(encoded.payload);
    var d := Decoded(0, compression, data);
    if |data| + 5 <= size {
      assert Frame(d) <= encoded.payload;
      FrameUnique(d, d, encoded.payload);
      FrameUnique(d, r.value, encoded.payload);
    }
  }

  lemma ComputedSize(payload: nat, least: nat)
    requires PowerOfTwo(least)
    ensures var size := ToInt(GetEncodedDataSize(payload, least));
      if payload + 5 <= 0x4000_0000 && least <= 0x4000_0000 then payload + 5 <= size else size <= 0
  {
    LargePowers();
    EncodedDataSize(payload, least, 0x4000_0000);
    PowerToInt(GetEncodedDataSize(payload, least));
  }

  // ---------------------------------------------------------------- compression groups

  predicate Small(groups: seq<Bytes>) {
    forall i :: 0 <= i < |groups| ==> |groups[i]| < 0x1_0000_0000
  }

  function Group(g: Bytes): (b: Bytes)
    requires |g| < 0x1_0000_0000
    ensures |b| == 4 + |g|
  {
    U32(|g|) + g
  }

  /** From `at` on there is the length of g, the most significant byte first, and then g. */
  predicate Holds(o: Bytes, at: nat, g: Bytes) {
    && at + 4 + |g| <= |o| && o[at + 4..at + 4 + |g|] == g
    && o[at] as int * 0x100_0000 + o[at + 1] as int * 0x1_0000 + o[at + 2] as int * 0x100 + o[at + 3] as int == |g|
  }

  /** The groups one after the other. */
  function Blob(groups: seq<Bytes>): (b: Bytes)
    requires Small(groups)
  {
    if groups == [] then [] else Group(groups[0]) + Blob(groups[1..])
  }

  lemma {:induction false} BlobMore(groups: seq<Bytes>, g: Bytes)
    requires Small(groups) && |g| < 0x1_0000_0000
    ensures Small(groups + [g]) && Blob(groups + [g]) == Blob(groups) + Group(g)
  {
    if groups == [] {
      assert [] + [g] == [g] && [g][1..] == [];
      assert Blob([g]) == Group(g) + Blob([]);
    } else {
      assert (groups + [g])[1..] == groups[1..] + [g];
      BlobMore(groups[1..], g);
      Associated(Group(groups[0]), Blob(groups[1..]), Group(g));
    }
  }

  /** A blob starts with its first group and with no other. */
  lemma FirstGroup(groups: seq<Bytes>, g: Bytes, rest: Bytes)
    requires Small(groups) && |g| < 0x1_0000_0000 && Blob(groups) == Group(g) + rest
    ensures groups != [] && groups[0] == g && Blob(groups[1..]) == rest
  {
    var b := Blob(groups);
    assert b[..4] == U32(|groups[0]|) && b[..4] == U32(|g|);
    U32RoundTrip(|groups[0]|, b[..4]);
    U32RoundTrip(|g|, b[..4]);
    assert b[4..4 + |g|] == g && b[4..4 + |g|] == groups[0];
    assert b[4 + |g|..] == rest && b[4 + |g|..] == Blob(groups[1..]);
  }

  lemma BlobNext(groups: seq<Bytes>, i: nat)
    requires Small(groups) && i < |groups|
    ensures Blob(groups[..i + 1]) == Blob(groups[..i]) + Group(groups[i])
  {
    assert groups[..i + 1] == groups[..i] + [groups[i]];
    BlobMore(groups[..i], groups[i]);
  }

  lemma {:induction false} BlobFront(groups: seq<Bytes>, i: nat)
    requires Small(groups) && i <= |groups|
    ensures Blob(groups[..i]) <= Blob(groups)
    decreases |groups| - i
  {
    if i == |groups| {
      assert groups[..i] == groups;
    } else {
      BlobNext(groups, i);
      BlobFront(groups, i + 1);
      Shorter(Blob(groups[..i]), Group(groups[i]), Blob(groups));
    }
  }

  lemma Shorter(a: Bytes, b: Bytes, c: Bytes)
    requires a + b <= c
    ensures a <= c
  {
    assert a == (a + b)[..|a|] == c[..|a|];
  }

  lemma BlobStep(groups: seq<Bytes>, i: nat)
    requires Small(groups) && i < |groups|
    ensures Blob(groups[..i + 1]) == Blob(groups[..i]) + Group(groups[i]) && Blob(groups[..i + 1]) <= Blob(groups)
  {
    BlobNext(groups, i);
    BlobFront(groups, i + 1);
  }

  /** The size of the groups with a length in front of each. */
  function Total(groups: seq<Bytes>): (n: nat) {
    if groups == [] then 0 else Total(groups[..|groups| - 1]) + 4 + |groups[|groups| - 1]|
  }

  lemma {:induction false} TotalBlob(groups: seq<Bytes>)
    requires Small(groups)
    ensures |Blob(groups)| == Total(groups)
  {
    if groups != [] {
      var n := |groups| - 1;
      TotalBlob(groups[..n]);
      assert groups == groups[..n] + [groups[n]];
      BlobMore(groups[..n], groups[n]);
    }
  }

  lemma {:induction false} TotalFront(groups: seq<Bytes>, i: nat)
    requires i <= |groups|
    ensures Total(groups[..i]) + 4 * (|groups| - i) <= Total(groups)
    decreases |groups| - i
  {
    if i == |groups| {
      assert groups[..i] == groups;
    } else {
      TotalStep(groups, i);
      TotalFront(groups, i + 1);
    }
  }

  lemma TotalStep(groups: seq<Bytes>, i: nat)
    requires i < |groups|
    ensures Total(groups[..i + 1]) == Total(groups[..i]) + 4 + |groups[i]|
  {
    assert groups[..i + 1][..i] == groups[..i];
  }

  /** What fits an int as a whole has groups whose lengths fit 32 bits. */
  lemma TotalSmall(groups: seq<Bytes>)
    requires Total(groups) <= INT_MAX
    ensures Small(groups)
  {
    forall i | 0 <= i < |groups|
      ensures |groups[i]| < 0x1_0000_0000
    {
      TotalStep(groups, i);
      TotalFront(groups, i + 1);
    }
  }

  /** UncompressedConcatenator. The output is the blob exactly if its size fits an int; None if the
      size is negative as an int, for which no output can be allocated.
   */
  method Build(groups: seq<Bytes>) returns (output: Option<Bytes>)
    ensures output.None? <==> ToInt(Total(groups)) < 0
    ensures output.Some? ==> |output.value| == ToInt(Total(groups))
    ensures Small(groups) && output == Some(Blob(groups)) <==> Total(groups) <= INT_MAX
    ensures Total(groups) <= INT_MAX ==>
              forall i :: 0 <= i < |groups| ==> Holds(output.value, Total(groups[..i]), groups[i])
  {
    var size := OutputSize(groups);
    if Small(groups) {
      TotalBlob(groups);
    }
    if size < 0 {
      return None;
    }
    var bytes := WriteGroups(groups, size);
    output := Some(bytes);
    if Total(groups) <= INT_MAX {
      GroupsAt(groups, bytes);
    }
  }

  lemma GroupsAt(groups: seq<Bytes>, o: Bytes)
    requires Small(groups) && o == Blob(groups)
    ensures forall i :: 0 <= i < |groups| ==> Holds(o, Total(groups[..i]), groups[i])
  {
    forall i | 0 <= i < |groups|
      ensures Holds(o, Total(groups[..i]), groups[i])
    {
      GroupAt(groups, i);
    }
  }

  /** What does not fit is left out. */
  method WriteGroups(groups: seq<Bytes>, size: nat) returns (bytes: Bytes)
    ensures |bytes| == size
    ensures size == Total(groups) <= INT_MAX ==> Small(groups) && bytes == Blob(groups)
  {
    if Total(groups) <= INT_MAX {
      TotalSmall(groups);
      TotalBlob(groups);
    }
    var writer := new DataWriter(size);
    for i := 0 to |groups|
      invariant fresh(writer) && |writer.written| <= size
      invariant size == Total(groups) <= INT_MAX ==> Small(groups) && writer.written == Blob(groups[..i])
    {
      if size == Total(groups) <= INT_MAX {
        BlobStep(groups, i);
      }
      WriteGroup(writer, groups[i]);
    }
    assert groups[..|groups|] == groups;
    ghost var blob := writer.written;
    writer.WritePadding();
    assert |blob| == size ==> writer.written == blob;
    return writer.written;
  }

  /** Where the i-th group is. */
  lemma GroupAt(groups: seq<Bytes>, i: nat)
    requires Small(groups) && i < |groups|
    ensures Holds(Blob(groups), Total(groups[..i]), groups[i])
  {
    TotalBlob(groups[..i]);
    BlobStep(groups, i);
    GroupHeld(Blob(groups[..i]), groups[i], Blob(groups));
  }

  lemma GroupHeld(front: Bytes, g: Bytes, o: Bytes)
    requires |g| < 0x1_0000_0000 && front + Group(g) <= o
    ensures Holds(o, |front|, g)
  {
    NetworkOrder(|g|);
    GroupBytes(front, U32(|g|), g, o);
  }

  lemma GroupBytes(front: Bytes, b: Bytes, g: Bytes, o: Bytes)
    requires |b| == 4 && front + (b + g) <= o
    ensures var at := |front|;
      && at + 4 + |g| <= |o| && o[at + 4..at + 4 + |g|] == g
      && o[at] == b[0] && o[at + 1] == b[1] && o[at + 2] == b[2] && o[at + 3] == b[3]
  {
    var at := |front|;
    assert o[..at + 4 + |g|] == front + (b + g);
  }

  method WriteGroup(writer: DataWriter, g: Bytes)
    requires |writer.written| <= writer.size
    modifies writer
    ensures |writer.written| <= writer.size
    ensures |old(writer.written)| + 4 + |g| <= writer.size && |g| < 0x1_0000_0000 ==>
              writer.written == old(writer.written) + Group(g)
  {
    var ok := writer.Write(U32(|g| % 0x1_0000_0000));
    ok := writer.Write(g);
    Associated(old(writer.written), U32(|g| % 0x1_0000_0000), g);
  }

  lemma Associated(a: Bytes, b: Bytes, c: Bytes)
    ensures a + b + c == a + (b + c)
  {
  }

  /** The sum is kept in an int throughout. */
  method OutputSize(groups: seq<Bytes>) returns (size: int)
    ensures size == ToInt(Total(groups))
  {
    size := ToInt(4 * |groups|);
    for i := 0 to |groups|
      invariant size == ToInt(Total(groups[..i]) + 4 * (|groups| - i))
    {
      TotalStep(groups, i);
      ToIntSum(Total(groups[..i]) + 4 * (|groups| - i), |groups[i]|);
      size := ToInt(size + |groups[i]|);
    }
    assert groups[..|groups|] == groups;
  }

  lemma ToIntSum(n: int, m: int)
    ensures ToInt(ToInt(n) + m) == ToInt(n + m)
  {
  }

  /** UncompressedBlobReader's ExtractOneCompressionGroup. */
  method ExtractOneCompressionGroup(reader: DataReader) returns (g: Option<Bytes>)
    modifies reader
    ensures g.Some? ==> |g.value| < 0x1_0000_0000 && old(reader.left) == Group(g.value) + reader.left
    ensures var l := old(reader.left);
      && (g.Some? <==>
          && |l| >= 4
          && |l| >= 4 + l[0] as int * 0x100_0000 + l[1] as int * 0x1_0000 + l[2] as int * 0x100 + l[3] as int)
      && (g.Some? ==> Holds(l, 0, g.value))
  {
    var size := reader.Read(4);
    if size.None? {
      return None;
    }
    assert size.value == old(reader.left)[..4];
    U32RoundTrip(0, size.value);
    g := reader.Read(FromU32(size.value));
    if g.Some? {
      assert old(reader.left) == size.value + g.value + reader.left;
    }
  }

  /** Reading until done gives groups of which the blob is made, if it can be read at all, and so
      gives back the groups of which it was built.
   */
  method ReadAll(blob: Bytes, ghost built: seq<Bytes>) returns (r: Option<seq<Bytes>>)
    requires Small(built)
    ensures r.Some? ==> Small(r.value) && Blob(r.value) == blob
    ensures Blob(built) == blob ==> r == Some(built)
  {
    var reader := new DataReader(blob);
    var got: seq<Bytes> := [];
    ghost var todo := built;
    while reader.left != []
      invariant fresh(reader) && Small(got) && Small(todo) && Blob(got) + reader.left == blob
      invariant Blob(built) == blob ==> got + todo == built && reader.left == Blob(todo)
      decreases |reader.left|
    {
      var g := ExtractNext(reader, todo);
      if g.None? {
        return None;
      }
      Regroup(got, g.value, reader.left);
      if Blob(built) == blob {
        FirstGroup(todo, g.value, reader.left);
        Shift(got, todo);
        todo := todo[1..];
      }
      got := got + [g.value];
    }
    if todo == [] {
      assert got + todo == got;
    } else {
      Readable(todo);
    }
    return Some(got);
  }

  /** Of a blob, a group can be extracted as long as there is one. */
  method ExtractNext(reader: DataReader, ghost todo: seq<Bytes>) returns (g: Option<Bytes>)
    requires Small(todo)
    modifies reader
    ensures g.Some? ==> |g.value| < 0x1_0000_0000 && old(reader.left) == Group(g.value) + reader.left
    ensures old(reader.left) == Blob(todo) && todo != [] ==> g.Some?
  {
    if todo != [] {
      Readable(todo);
    }
    g := ExtractOneCompressionGroup(reader);
  }

  lemma Regroup(got: seq<Bytes>, g: Bytes, rest: Bytes)
    requires Small(got) && |g| < 0x1_0000_0000
    ensures Small(got + [g]) && Blob(got) + (Group(g) + rest) == Blob(got + [g]) + rest
  {
    BlobMore(got, g);
  }

  lemma Shift(got: seq<Bytes>, todo: seq<Bytes>)
    requires todo != []
    ensures got + todo == got + [todo[0]] + todo[1..]
  {
  }

  lemma Readable(groups: seq<Bytes>)
    requires Small(groups) && groups != []
    ensures var l := Blob(groups);
      |l| >= 4 && |l| >= 4 + l[0] as int * 0x100_0000 + l[1] as int * 0x1_0000 + l[2] as int * 0x100 + l[3] as int
  {
    assert Blob(groups)[..4] == U32(|groups[0]|);
    U32RoundTrip(|groups[0]|, Blob(groups)[..4]);
  }
}
