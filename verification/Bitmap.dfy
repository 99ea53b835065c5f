/** The free bitmap of fs.c: one bit per disk block, in bitmap blocks of BPB bits. */
module Bitmap {

  const BPB: nat := 4096      // BSIZE * 8
  const BYTES: nat := 512

  /** The bitmap blocks, as bytes. */
  type Map = seq<seq<bv8>>

  /** 1 << k for k < 8. */
  function Mask(k: nat): bv8 {
    if k == 0 then 1 else if k == 1 then 2 else if k == 2 then 4 else if k == 3 then 8
    else if k == 4 then 16 else if k == 5 then 32 else if k == 6 then 64 else 128
  }

  lemma MaskShifts(k: nat)
    requires k < 7
    ensures Mask(0) == 1 && Mask(k + 1) == Mask(k) << 1
  {
  }

  /** The bitmap covers the first n blocks. */
  ghost predicate Covers(m: Map, n: nat) {
    (forall j | 0 <= j < |m| :: |m[j]| == BYTES) && n <= |m| * BPB
  }

  /** A bit of the bitmap: bitmap block, byte in it, bit in that. */
  datatype Bit = Bit(block: nat, byte: nat, bit: nat)

  /** The bit of disk block b: BBLOCK, bi / 8 and bi % 8. */
  function BitOf(b: nat): Bit {
    var bi := b % BPB;
    Bit(b / BPB, bi / 8, bi % 8)
  }

  predicate InMap(m: Map, w: Bit) {
    w.block < |m| && w.byte < |m[w.block]| && w.bit < 8
  }

  predicate TestByte(x: bv8, k: nat) {
    x & Mask(k) != 0
  }

  function SetIn(x: bv8, k: nat): bv8 { x | Mask(k) }

  function ClearIn(x: bv8, k: nat): bv8 { x & !Mask(k) }

  predicate Test(m: Map, w: Bit)
    requires InMap(m, w)
  {
    TestByte(m[w.block][w.byte], w.bit)
  }

  function SetBit(m: Map, w: Bit): Map
    requires InMap(m, w)
  {
    m[w.block := m[w.block][w.byte := SetIn(m[w.block][w.byte], w.bit)]]
  }

  function ClearBit(m: Map, w: Bit): Map
    requires InMap(m, w)
  {
    m[w.block := m[w.block][w.byte := ClearIn(m[w.block][w.byte], w.bit)]]
  }

  lemma Covered(m: Map, n: nat, b: nat)
    requires Covers(m, n) && b < n
    ensures InMap(m, BitOf(b))
  {
  }

  /** The bitmap as a plain sequence of bits. */
  ghost function Bits(m: Map, n: nat): (s: seq<bool>)
    requires Covers(m, n)
    ensures |s| == n
  {
    seq(n, b requires 0 <= b < n => (Covered(m, n, b); Test(m, BitOf(b))))
  }

  /** Setting or clearing the bit of one block changes that bit and no other. */
  lemma SetBitBits(m: Map, n: nat, b: nat)
    requires Covers(m, n) && b < n
    ensures InMap(m, BitOf(b)) && Covers(SetBit(m, BitOf(b)), n)
    ensures Bits(SetBit(m, BitOf(b)), n) == Bits(m, n)[b := true]
  {
  }

  lemma ClearBitBits(m: Map, n: nat, b: nat)
    requires Covers(m, n) && b < n
    ensures InMap(m, BitOf(b)) && Covers(ClearBit(m, BitOf(b)), n)
    ensures Bits(ClearBit(m, BitOf(b)), n) == Bits(m, n)[b := false]
  {
  }

  /** balloc's search: bitmap block by bitmap block, bit by bit, for the first clear bit. */
  method FindFree(m: Map, n: nat) returns (found: bool, r: nat)
    requires Covers(m, n)
    ensures found ==> r < n && !Bits(m, n)[r] && forall c | 0 <= c < r :: Bits(m, n)[c]
    ensures !found ==> forall c | 0 <= c < n :: Bits(m, n)[c]
  {
    var b := 0;
    while b < n
      invariant b % BPB == 0 && forall c | 0 <= c < b && c < n :: Bits(m, n)[c]
      decreases n - b
    {
      Covered(m, n, b);
      var data := m[b / BPB];
      var bi := 0;
      while bi < BPB && b + bi < n
        invariant bi <= BPB
        invariant forall c | 0 <= c < b + bi && c < n :: Bits(m, n)[c]
      {
        assert BitOf(b + bi) == Bit(b / BPB, bi / 8, bi % 8);
        if !TestByte(data[bi / 8], bi % 8) {
          return true, b + bi;
        }
        assert Bits(m, n)[b + bi];
        bi := bi + 1;
      }
      b := b + BPB;
    }
    return false, 0;
  }
}
