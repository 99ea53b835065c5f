/** The bytes of a page, which the kernel reads and writes through the words of its frame. */
module PageBytes {
  import opened PageTree

  type Byte = b: int | 0 <= b < 256

  const WORD: nat := 8   // bytes in a word

  /** The 64-bit value of a word. */
  function Value(w: Word): nat { w.frame * PAGE + w.flags }

  function OfValue(v: nat): (w: Word)
    ensures Value(w) == v
  {
    Word(v / PAGE, v % PAGE)
  }

  /** Byte k of a value, the least significant first. */
  function Digit(v: nat, k: nat): Byte { if k == 0 then v % 256 else Digit(v / 256, k - 1) }

  function SetDigit(v: nat, k: nat, b: Byte): nat {
    if k == 0 then v / 256 * 256 + b else SetDigit(v / 256, k - 1, b) * 256 + v % 256
  }

  lemma {:induction false} DigitSet(v: nat, k: nat, b: Byte, j: nat)
    ensures Digit(SetDigit(v, k, b), j) == if j == k then b else Digit(v, j)
  {
    var u := SetDigit(v, k, b);
    if k == 0 {
      assert u % 256 == b && u / 256 == v / 256;
    } else {
      assert u % 256 == v % 256 && u / 256 == SetDigit(v / 256, k - 1, b);
      if j > 0 { DigitSet(v / 256, k - 1, b, j - 1); }
    }
  }

  lemma {:induction false} ZeroDigit(k: nat)
    ensures Digit(0, k) == 0
  {
    if k > 0 { ZeroDigit(k - 1); }
  }

  /** The number that bytes stand for, with weights 1, 256, 256 * 256 and so on. */
  function LittleEndian(b: seq<Byte>): nat { if b == [] then 0 else b[0] + 256 * LittleEndian(b[1..]) }

  /** The n bytes of a value, the least significant first. */
  function ByteDigits(v: nat, n: nat): (r: seq<Byte>)
    ensures |r| == n
  {
    seq(n, k requires 0 <= k < n => Digit(v, k))
  }

  function Limit(n: nat): nat { if n == 0 then 1 else 256 * Limit(n - 1) }

  lemma {:induction false} DigitsSum(v: nat, n: nat)
    requires v < Limit(n)
    ensures LittleEndian(ByteDigits(v, n)) == v
  {
    if n > 0 {
      DigitsSum(v / 256, n - 1);
      assert ByteDigits(v, n)[1..] == ByteDigits(v / 256, n - 1);
    }
  }

  lemma WordLimit()
    ensures Limit(WORD) == 0x1_0000_0000_0000_0000
  {
    assert Limit(2) == 0x1_0000;
    assert Limit(4) == 0x1_0000_0000;
    assert Limit(6) == 0x1_0000_0000_0000;
  }

  function ByteIn(page: seq<Word>, off: nat): Byte
    requires |page| == SLOTS && off < PAGE
  {
    Digit(Value(page[off / WORD]), off % WORD)
  }

  function PutByte(page: seq<Word>, off: nat, b: Byte): (r: seq<Word>)
    requires |page| == SLOTS && off < PAGE
    ensures |r| == SLOTS
  {
    page[off / WORD := OfValue(SetDigit(Value(page[off / WORD]), off % WORD, b))]
  }

  /** A store changes the byte stored and no other. */
  lemma PutByteAt(page: seq<Word>, off: nat, b: Byte, x: nat)
    requires |page| == SLOTS && off < PAGE && x < PAGE
    ensures ByteIn(PutByte(page, off, b), x) == if x == off then b else ByteIn(page, x)
  {
    if x / WORD == off / WORD { DigitSet(Value(page[off / WORD]), off % WORD, b, x % WORD); }
  }

  /** kfree's memset: every byte is 1. */
  lemma JunkBytes(x: nat)
    requires x < PAGE
    ensures ByteIn(Junk(), x) == 1
  {
    assert Value(Junk()[x / WORD]) == 0x0101_0101_0101_0101;
    OnesDigit(x % WORD);
  }

  lemma OnesDigit(k: nat)
    requires k < WORD
    ensures Digit(0x0101_0101_0101_0101, k) == 1
  {
    var v := 0x0101_0101_0101_0101;
    assert Digit(v, 0) == 1 && Digit(v, 1) == Digit(0x01_0101_0101_0101, 0)
      && Digit(v, 2) == Digit(0x0101_0101_0101, 0);
    assert Digit(v, 3) == Digit(0x01_0101_0101, 0) && Digit(v, 4) == Digit(0x0101_0101, 0);
    assert Digit(v, 5) == Digit(0x01_0101, 0) && Digit(v, 6) == Digit(0x0101, 0) && Digit(v, 7) == Digit(0x01, 0);
  }

  lemma ZeroBytes(x: nat)
    requires x < PAGE
    ensures ByteIn(Zeros(), x) == 0
  {
    ZeroDigit(x % WORD);
  }

  /** n bytes of the page from off on are those of the data from `from` on; the others are kept. */
  ghost predicate MovedIn(page: seq<Word>, r: seq<Word>, off: nat, data: seq<Byte>, from: nat, n: nat)
    requires |page| == SLOTS && off + n <= PAGE && from + n <= |data|
  {
    |r| == SLOTS && forall x: nat | x < PAGE ::
      ByteIn(r, x) == if off <= x < off + n then data[from + x - off] else ByteIn(page, x)
  }

  lemma MovedMore(page: seq<Word>, r: seq<Word>, off: nat, data: seq<Byte>, from: nat, n: nat)
    requires |page| == SLOTS && off + n < PAGE && from + n < |data| && MovedIn(page, r, off, data, from, n)
    ensures MovedIn(page, PutByte(r, off + n, data[from + n]), off, data, from, n + 1)
  {
    var t := PutByte(r, off + n, data[from + n]);
    forall x: nat | x < PAGE
      ensures ByteIn(t, x) == if off <= x < off + n + 1 then data[from + x - off] else ByteIn(page, x)
    {
      PutByteAt(r, off + n, data[from + n], x);
      assert ByteIn(r, x) == if off <= x < off + n then data[from + x - off] else ByteIn(page, x);
    }
  }

  /** memmove into a page. */
  method MoveIn(page: seq<Word>, off: nat, data: seq<Byte>, from: nat, n: nat) returns (r: seq<Word>)
    requires |page| == SLOTS && off + n <= PAGE && from + n <= |data|
    ensures MovedIn(page, r, off, data, from, n)
  {
    r := page;
    for i := 0 to n
      invariant MovedIn(page, r, off, data, from, i)
    {
      MovedMore(page, r, off, data, from, i);
      r := PutByte(r, off + i, data[from + i]);
    }
  }
}
