/**
  Bits and words inside a block of bytes: what testing, setting and clearing a bit and
  reading and writing a 4-byte word do to the other bits and words of the block.
 */
module Bits {
  import opened Base

  const BSIZE: nat := 1024

  /** A uchar, low bit first. */
  type Byte = v: seq<bool> | |v| == 8 witness Binary(0, 8)

  type Block = d: seq<Byte> | |d| == BSIZE witness Zeros(BSIZE)

  function Zeros(n: nat): (z: seq<Byte>)
    ensures |z| == n && forall i :: 0 <= i < n ==> z[i] == Binary(0, 8)
  {
    if n == 0 then [] else Zeros(n - 1) + [Binary(0, 8)]
  }

  function ZeroBlock(): (z: Block)
    ensures forall i :: 0 <= i < BSIZE ==> z[i] == Binary(0, 8)
  {
    Zeros(BSIZE)
  }

  // ------------------------------------------------------------------ bits

  const BPB: nat := BSIZE * 8

  predicate BitOf(d: Block, bi: nat)
    requires bi < BPB
  {
    d[bi / 8][bi % 8]
  }

  function WithBit(d: Block, bi: nat, on: bool): (r: Block)
    requires bi < BPB
  {
    d[bi / 8 := d[bi / 8][bi % 8 := on]]
  }

  lemma WithBitChangesOne(d: Block, bi: nat, on: bool, bj: nat)
    requires bi < BPB && bj < BPB
    ensures BitOf(WithBit(d, bi, on), bj) == if bi == bj then on else BitOf(d, bj)
  {
    if bi / 8 == bj / 8 && bi != bj {
      assert bi % 8 != bj % 8;
    }
  }

  // --------------------------------------------------------------- numbers

  function Pow2(n: nat): (p: nat)
    ensures p > 0
  {
    if n == 0 then 1 else 2 * Pow2(n - 1)
  }

  /** The n low bits of x, and the number that a list of bits stands for. */
  function Binary(x: nat, n: nat): (bits: seq<bool>)
    ensures |bits| == n
  {
    if n == 0 then [] else [x % 2 == 1] + Binary(x / 2, n - 1)
  }

  function Value(bits: seq<bool>): (x: nat) {
    if bits == [] then 0 else (if bits[0] then 1 else 0) + 2 * Value(bits[1..])
  }

  lemma {:induction false} BinaryValue(x: nat, n: nat)
    requires x < Pow2(n)
    ensures Value(Binary(x, n)) == x
  {
    if n > 0 {
      BinaryValue(x / 2, n - 1);
      assert Binary(x, n)[1..] == Binary(x / 2, n - 1);
    }
  }

  // ----------------------------------------------------------------- words

  const NINDIRECT: nat := 256   // BSIZE / sizeof(uint)

  /** Little end first, in memory and here. */
  function Bytes(x: nat, n: nat): (bs: seq<Byte>)
    ensures |bs| == n
  {
    if n == 0 then [] else [Binary(x % 256, 8)] + Bytes(x / 256, n - 1)
  }

  function Number(bs: seq<Byte>): (x: nat) {
    if bs == [] then 0 else Value(bs[0]) + 256 * Number(bs[1..])
  }

  function Pow256(n: nat): nat { if n == 0 then 1 else 256 * Pow256(n - 1) }

  lemma {:induction false} BytesNumber(x: nat, n: nat)
    requires x < Pow256(n)
    ensures Number(Bytes(x, n)) == x
  {
    if n > 0 {
      BytesNumber(x / 256, n - 1);
      assert Bytes(x, n)[1..] == Bytes(x / 256, n - 1);
      assert Pow2(8) == 2 * Pow2(7) == 4 * Pow2(6) == 8 * Pow2(5) == 16 * Pow2(4) == 256;
      BinaryValue(x % 256, 8);
    }
  }

  lemma {:induction false} ValueBinary(bits: seq<bool>)
    ensures Value(bits) < Pow2(|bits|) && Binary(Value(bits), |bits|) == bits
  {
    if bits != [] {
      ValueBinary(bits[1..]);
      assert Value(bits) / 2 == Value(bits[1..]) && (Value(bits) % 2 == 1 <==> bits[0]);
    }
  }

  lemma {:induction false} ByteBack(b: Byte)
    ensures Value(b) < 256 && Binary(Value(b), 8) == b
  {
    ValueBinary(b);
    assert Pow2(8) == 2 * Pow2(7) == 4 * Pow2(6) == 8 * Pow2(5) == 16 * Pow2(4) == 256;
  }

  lemma {:induction false} NumberBytes(bs: seq<Byte>)
    ensures Bytes(Number(bs), |bs|) == bs
  {
    if bs != [] {
      NumberBytes(bs[1..]);
      ByteBack(bs[0]);
      var v, r := Value(bs[0]), Number(bs[1..]);
      IsRemainder(256, r, v, v + 256 * r);
    }
  }

  /** The block as an array of uint: entry j. */
  function WordAt(d: Block, j: nat): (v: nat)
    requires j < NINDIRECT
  {
    Number(d[4 * j..4 * j + 4])
  }

  function PutWord(d: Block, j: nat, v: nat): (r: Block)
    requires j < NINDIRECT
  {
    d[..4 * j] + Bytes(v, 4) + d[4 * j + 4..]
  }

  lemma PutWordChangesOne(d: Block, j: nat, v: nat, i: nat)
    requires j < NINDIRECT && i < NINDIRECT && v < UINT
    ensures WordAt(PutWord(d, j, v), i) == if i == j then v else WordAt(d, i)
  {
    var r := PutWord(d, j, v);
    if i == j {
      assert r[4 * j..4 * j + 4] == Bytes(v, 4);
      assert Pow256(4) == 256 * Pow256(3) == 65536 * Pow256(2) == UINT;
      BytesNumber(v, 4);
    } else {
      assert r[4 * i..4 * i + 4] == d[4 * i..4 * i + 4];
    }
  }

  lemma {:induction false} NumberOfZeros(bs: seq<Byte>)
    requires forall i :: 0 <= i < |bs| ==> bs[i] == Binary(0, 8)
    ensures Number(bs) == 0
  {
    if bs != [] {
      assert Pow2(8) > 0;
      BinaryValue(0, 8);
      NumberOfZeros(bs[1..]);
    }
  }

  lemma ZeroWord(j: nat)
    requires j < NINDIRECT
    ensures WordAt(ZeroBlock(), j) == 0
  {
    NumberOfZeros(ZeroBlock()[4 * j..4 * j + 4]);
  }
}
