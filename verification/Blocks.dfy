/** Disk blocks as the kernel sees them: BSIZE bytes, which the log header and the
    indirect blocks reinterpret as little-endian 32-bit words. */
module Blocks {
  const BSIZE: nat := 512
  const WORDS: nat := BSIZE / 4
  const WORD_LIMIT: nat := 0x1_0000_0000

  newtype Byte = x: int | 0 <= x < 256
  type Block = s: seq<Byte> | |s| == BSIZE witness seq(BSIZE, _ => 0)

  function ZeroBlock(): Block {
    seq(BSIZE, _ => 0)
  }

  /** n bytes from offset k on, least significant first. */
  function DecodeAt(b: seq<Byte>, k: nat, n: nat): nat
    requires k + n <= |b|
    decreases n
  {
    if n == 0 then 0 else b[k] as nat + 256 * DecodeAt(b, k + 1, n - 1)
  }

  function Digit(v: nat): Byte {
    (v % 256) as Byte
  }

  /** `((uint*)data)[i]` on a little-endian machine. */
  function WordAt(b: Block, i: nat): nat
    requires i < WORDS
  {
    DecodeAt(b, 4 * i, 4)
  }

  /** `((uint*)data)[i] = v`. */
  function SetWord(b: Block, i: nat, v: nat): Block
    requires i < WORDS
  {
    b[4 * i := Digit(v)][4 * i + 1 := Digit(v / 256)]
     [4 * i + 2 := Digit(v / 65536)][4 * i + 3 := Digit(v / 16777216)]
  }

  lemma DecodeFour(b: seq<Byte>, k: nat)
    requires k + 4 <= |b|
    ensures DecodeAt(b, k, 4) == b[k] as nat + 256 * (b[k + 1] as nat)
                                 + 65536 * (b[k + 2] as nat) + 16777216 * (b[k + 3] as nat)
  {
    assert DecodeAt(b, k + 2, 2) == b[k + 2] as nat + 256 * DecodeAt(b, k + 3, 1);
    assert DecodeAt(b, k + 1, 3) == b[k + 1] as nat + 256 * DecodeAt(b, k + 2, 2);
  }

  lemma Digits(v: nat)
    requires v < WORD_LIMIT
    ensures v % 256 + 256 * (v / 256 % 256) + 65536 * (v / 65536 % 256)
            + 16777216 * (v / 16777216 % 256) == v
  {
    assert v / 65536 == v / 256 / 256;
    assert v / 16777216 == v / 65536 / 256;
  }

  /** A word store is read back, and no other word of the block changes. */
  lemma WordStore(b: Block, i: nat, v: nat, j: nat)
    requires i < WORDS && j < WORDS && v < WORD_LIMIT
    ensures WordAt(SetWord(b, i, v), j) == if i == j then v else WordAt(b, j)
  {
    DecodeFour(SetWord(b, i, v), 4 * j);
    DecodeFour(b, 4 * j);
    Digits(v);
  }

  lemma ZeroWord(i: nat)
    requires i < WORDS
    ensures WordAt(ZeroBlock(), i) == 0
  {
    DecodeFour(ZeroBlock(), 4 * i);
  }
}
