/**
  * Octets and the fixed-width integers the wire and file formats are built from.
  *
  * Integers are written by `Pack..` and read by `Read..`, most significant octet first or
  * last, and reading gives back what was written wherever the field stands in a message.
  */
module ByteCodec {

  type byte = b: int | 0 <= b < 0x100
  type bytes = seq<byte>
  type u16 = n: int | 0 <= n < 0x1_0000
  type u32 = n: int | 0 <= n < 0x1_0000_0000

  datatype Option<+T> = None | Some(value: T)

  function Min(a: int, b: int): int { if a < b then a else b }

  function PackBe16(v: u16): (r: bytes)
    ensures |r| == 2
  {
    [v / 0x100, v % 0x100]
  }

  function PackLe16(v: u16): (r: bytes)
    ensures |r| == 2
  {
    [v % 0x100, v / 0x100]
  }

  function PackBe32(v: u32): (r: bytes)
    ensures |r| == 4
  {
    [v / 0x100_0000, v / 0x1_0000 % 0x100, v / 0x100 % 0x100, v % 0x100]
  }

  function PackLe32(v: u32): (r: bytes)
    ensures |r| == 4
  {
    [v % 0x100, v / 0x100 % 0x100, v / 0x1_0000 % 0x100, v / 0x100_0000]
  }

  function ReadBe16(b: bytes, off: nat): u16
    requires off + 2 <= |b|
  {
    b[off] as int * 0x100 + b[off + 1]
  }

  function ReadLe16(b: bytes, off: nat): u16
    requires off + 2 <= |b|
  {
    b[off] + b[off + 1] as int * 0x100
  }

  function ReadBe32(b: bytes, off: nat): u32
    requires off + 4 <= |b|
  {
    b[off] as int * 0x100_0000 + b[off + 1] as int * 0x1_0000 + b[off + 2] as int * 0x100 + b[off + 3]
  }

  function ReadLe32(b: bytes, off: nat): u32
    requires off + 4 <= |b|
  {
    b[off] + b[off + 1] as int * 0x100 + b[off + 2] as int * 0x1_0000 + b[off + 3] as int * 0x100_0000
  }

  function Zeros(n: nat): (r: bytes)
    ensures |r| == n
  {
    seq(n, _ => 0)
  }

  /** The same four octets read as a two's-complement quantity. */
  function Signed32(v: u32): (r: int)
    ensures -0x8000_0000 <= r < 0x8000_0000
  {
    if v < 0x8000_0000 then v else v - 0x1_0000_0000
  }

  /** Reading is the left inverse of packing, wherever the packed field sits in a buffer. */
  lemma ReadAfterPack32(pre: bytes, v: u32, post: bytes)
    ensures ReadBe32(pre + PackBe32(v) + post, |pre|) == v
    ensures ReadLe32(pre + PackLe32(v) + post, |pre|) == v
  {
    FieldAt(pre, PackBe32(v), post);
    FieldAt(pre, PackLe32(v), post);
    Quarters(v);
  }

  lemma Quarters(v: u32)
    ensures v / 0x100_0000 * 0x100_0000 + v / 0x1_0000 % 0x100 * 0x1_0000 + v / 0x100 % 0x100 * 0x100 + v % 0x100 == v
  {
    assert v / 0x1_0000 == v / 0x100 / 0x100 && v / 0x100_0000 == v / 0x1_0000 / 0x100;
  }

  lemma FieldAt(pre: bytes, field: bytes, post: bytes)
    ensures forall i :: 0 <= i < |field| ==> (pre + field + post)[|pre| + i] == field[i]
  {
  }

  lemma ReadAfterPack16(pre: bytes, v: u16, post: bytes)
    ensures ReadBe16(pre + PackBe16(v) + post, |pre|) == v
    ensures ReadLe16(pre + PackLe16(v) + post, |pre|) == v
  {
    FieldAt(pre, PackBe16(v), post);
    FieldAt(pre, PackLe16(v), post);
  }

  /** A slice that is a packed field reads back as it. */
  lemma FieldReads16(b: bytes, off: nat, v: u16)
    requires off + 2 <= |b|
    ensures b[off..off + 2] == PackBe16(v) ==> ReadBe16(b, off) == v
    ensures b[off..off + 2] == PackLe16(v) ==> ReadLe16(b, off) == v
  {
    var f := b[off..off + 2];
    assert f[0] == b[off] && f[1] == b[off + 1];
  }

  lemma FieldReads32(b: bytes, off: nat, v: u32)
    requires off + 4 <= |b|
    ensures b[off..off + 4] == PackBe32(v) ==> ReadBe32(b, off) == v
    ensures b[off..off + 4] == PackLe32(v) ==> ReadLe32(b, off) == v
  {
    Quarters(v);
    var f := b[off..off + 4];
    assert f[0] == b[off] && f[1] == b[off + 1] && f[2] == b[off + 2] && f[3] == b[off + 3];
  }

  lemma Regroup<T>(a: seq<T>, b: seq<T>, c: seq<T>)
    ensures (a + b) + c == a + (b + c)
  {
  }

  /** Concatenation of a list of chunks. */
  function Flat<T>(chunks: seq<seq<T>>): seq<T> {
    if chunks == [] then [] else chunks[0] + Flat(chunks[1..])
  }

  lemma {:induction false} FlatAppend<T>(a: seq<seq<T>>, b: seq<seq<T>>)
    ensures Flat(a + b) == Flat(a) + Flat(b)
  {
    if a == [] {
      assert a + b == b;
    } else {
      assert (a + b)[1..] == a[1..] + b;
      FlatAppend(a[1..], b);
    }
  }

  lemma FlatSnoc<T>(chunks: seq<seq<T>>, last: seq<T>)
    ensures Flat(chunks + [last]) == Flat(chunks) + last
  {
    FlatAppend(chunks, [last]);
    assert Flat([last]) == last + [] == last;
  }
}
