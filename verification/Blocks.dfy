/** Disk blocks as bytes, and the two ways fs.c looks inside them: as a bitmap
    and as an array of little-endian words. */
module Blocks {

  const BSIZE := 512
  const BPB := 4096   // BSIZE * 8: bitmap bits in a block
  const WORDS := 128  // BSIZE / 4: words in a block, NINDIRECT
  const WORD_MAX := 0x1_0000_0000
  const MAXOPBLOCKS := 10 // blocks a file-system operation may log

  type Byte = x: int | 0 <= x < 256

  type Block = d: seq<Byte> | |d| == BSIZE witness seq(BSIZE, _ => 0)

  function Zero(): (d: Block)
    ensures forall k :: 0 <= k < BSIZE ==> d[k] == 0
  {
    seq(BSIZE, _ => 0)
  }

  // Bits ----------------------------------------------------------------------------------------

  /** 1 << k. */
  function Mask(k: nat): (m: nat) {
    if k == 0 then 1 else 2 * Mask(k - 1)
  }

  /** (x & 1 << k) != 0. */
  predicate Bit(x: nat, k: nat) {
    if k == 0 then x % 2 == 1 else Bit(x / 2, k - 1)
  }

  /** x | 1 << k when `on`, else x & ~(1 << k). */
  function WithBit(x: nat, k: nat, on: bool): (y: nat) {
    if k == 0 then x / 2 * 2 + (if on then 1 else 0) else WithBit(x / 2, k - 1, on) * 2 + x % 2
  }

  lemma {:induction false} WithBitReads(x: nat, k: nat, on: bool, j: nat)
    ensures Bit(WithBit(x, k, on), j) == if j == k then on else Bit(x, j)
  {
    if k > 0 && j > 0 {
      WithBitReads(x / 2, k - 1, on, j - 1);
    }
  }

  lemma {:induction false} WithBitFits(x: nat, k: nat, on: bool, w: nat)
    requires k < w && x < Mask(w)
    ensures WithBit(x, k, on) < Mask(w)
  {
    if k > 0 {
      WithBitFits(x / 2, k - 1, on, w - 1);
    }
  }

  lemma ByteMask()
    ensures Mask(8) == 256
  {
  }

  predicate BitAt(d: Block, bi: nat)
    requires bi < BPB
  {
    Bit(d[bi / 8], bi % 8)
  }

  function PutBit(d: Block, bi: nat, on: bool): (r: Block)
    requires bi < BPB
  {
    ByteMask();
    WithBitFits(d[bi / 8], bi % 8, on, 8);
    d[bi / 8 := WithBit(d[bi / 8], bi % 8, on)]
  }

  lemma PutBitReads(d: Block, bi: nat, on: bool, bj: nat)
    requires bi < BPB && bj < BPB
    ensures BitAt(PutBit(d, bi, on), bj) == if bj == bi then on else BitAt(d, bj)
  {
    if bi / 8 == bj / 8 {
      WithBitReads(d[bi / 8], bi % 8, on, bj % 8);
    }
  }

  // Words ---------------------------------------------------------------------------------------

  /** Four bytes, least significant first. */
  function Join(a: int, b: int, c: int, d: int): (v: int) {
    a + 256 * (b + 256 * (c + 256 * d))
  }

  /** ((uint*)data)[w]. */
  function Word(d: Block, w: nat): (v: nat)
    requires w < WORDS
    ensures v < WORD_MAX
  {
    Join(d[4 * w], d[4 * w + 1], d[4 * w + 2], d[4 * w + 3])
  }

  function WordBytes(v: nat): (s: seq<Byte>)
    requires v < WORD_MAX
    ensures |s| == 4 && Join(s[0], s[1], s[2], s[3]) == v
  {
    var x := v / 256;
    var y := x / 256;
    [v % 256, x % 256, y % 256, y / 256]
  }

  /** memmove of `s` to offset `at` of the block. */
  function PutBytes(d: Block, at: nat, s: seq<Byte>): (r: Block)
    requires at + |s| <= BSIZE
  {
    d[..at] + s + d[at + |s|..]
  }

  function PutWord(d: Block, w: nat, v: nat): (r: Block)
    requires w < WORDS && v < WORD_MAX
  {
    PutBytes(d, 4 * w, WordBytes(v))
  }

  lemma PutWordReads(d: Block, w: nat, v: nat, u: nat)
    requires w < WORDS && v < WORD_MAX && u < WORDS
    ensures Word(PutWord(d, w, v), u) == if u == w then v else Word(d, u)
  {
  }

}
