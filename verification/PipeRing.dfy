/** The ring of pipe.c: 512 bytes and two 32-bit counters that wrap, filled and emptied by the
    loops of pipewrite and piperead, as a queue of bytes. */
module PipeRing {

  const PIPESIZE: nat := 512
  const WORD: nat := 0x1_0000_0000   // the counters are 32-bit unsigned

  type Byte = b: int | 0 <= b < 256

  /** Occupancy from the two counters, as unsigned subtraction gives it. */
  function Used(nread: nat, nwrite: nat): nat
    requires nread < WORD && nwrite < WORD
  {
    (nwrite + WORD - nread) % WORD
  }

  /** The slot of the k-th byte in the pipe. */
  function SlotOf(nread: nat, k: nat): nat { (nread + k) % PIPESIZE }

  /** Slots of different bytes differ while there are at most PIPESIZE of them, and counting
      on from a wrapped counter gives the same slot because PIPESIZE divides the word size. */
  lemma SlotsDiffer(nread: nat, j: nat, k: nat)
    requires j < k < j + PIPESIZE
    ensures SlotOf(nread, j) != SlotOf(nread, k)
  {
  }

  lemma SlotWraps(nread: nat, k: nat)
    requires nread < WORD
    ensures (nread + 1) % WORD < WORD && SlotOf((nread + 1) % WORD, k) == SlotOf(nread, k + 1)
  {
  }

  /** The slot nwrite points to is the one after the last byte. */
  lemma WriteSlot(nread: nat, nwrite: nat)
    requires nread < WORD && nwrite < WORD
    ensures nwrite % PIPESIZE == SlotOf(nread, Used(nread, nwrite))
  {
  }

  class Ring {
    const data: array<Byte>
    var nread: nat
    var nwrite: nat
    ghost var bytes: seq<Byte>     // what was written and not yet read

    ghost predicate Valid()
      reads this, data
    {
      && data.Length == PIPESIZE && nread < WORD && nwrite < WORD
      && |bytes| == Used(nread, nwrite) <= PIPESIZE
      && (forall k | 0 <= k < |bytes| :: data[SlotOf(nread, k)] == bytes[k])
    }

    constructor ()
      ensures Valid() && bytes == [] && fresh(data)
    {
      data := new Byte[PIPESIZE](_ => 0);
      nread, nwrite, bytes := 0, 0, [];
    }

    /** The tests of the two loops are exact in spite of wrap-around. */
    method IsFull() returns (b: bool)
      requires Valid()
      ensures b <==> |bytes| == PIPESIZE
    {
      b := nwrite == (nread + PIPESIZE) % WORD;
    }

    method IsEmpty() returns (b: bool)
      requires Valid()
      ensures b <==> bytes == []
    {
      b := nread == nwrite;
    }

    method Put(b: Byte)
      requires Valid() && |bytes| < PIPESIZE
      modifies this, data
      ensures Valid() && bytes == old(bytes) + [b] && nread == old(nread)
    {
      WriteSlot(nread, nwrite);
      ghost var n := |bytes|;
      forall k | 0 <= k < n ensures SlotOf(nread, k) != SlotOf(nread, n) { SlotsDiffer(nread, k, n); }
      data[nwrite % PIPESIZE] := b;
      nwrite := (nwrite + 1) % WORD;
      bytes := bytes + [b];
    }

    method Get() returns (b: Byte)
      requires Valid() && bytes != []
      modifies this
      ensures Valid() && b == old(bytes)[0] && bytes == old(bytes)[1..]
    {
      b := data[nread % PIPESIZE];
      ghost var was, rest, next := bytes, bytes[1..], (nread + 1) % WORD;
      forall k | 0 <= k < |rest| ensures data[SlotOf(next, k)] == rest[k] {
        SlotWraps(nread, k);
        assert rest[k] == was[k + 1];
      }
      nread := (nread + 1) % WORD;
      bytes := bytes[1..];
    }

    /** pipewrite's loop up to the point where it is done or the pipe is full. */
    method Fill(addr: seq<Byte>, start: nat) returns (i: nat)
      requires Valid() && start <= |addr|
      modifies this, data
      ensures Valid() && start <= i <= |addr| && bytes == old(bytes) + addr[start..i]
      ensures i - start == if |addr| - start < PIPESIZE - |old(bytes)| then |addr| - start else PIPESIZE - |old(bytes)|
    {
      i := start;
      while i < |addr|
        invariant Valid() && start <= i <= |addr| && bytes == old(bytes) + addr[start..i]
      {
        var full := IsFull();
        if full {
          return;
        }
        Put(addr[i]);
        i := i + 1;
        assert addr[start..i] == addr[start..i - 1] + [addr[i - 1]];
      }
    }

    /** piperead's copying loop: as many bytes as asked for and there are, oldest first. */
    method Drain(n: nat) returns (out: seq<Byte>)
      requires Valid()
      modifies this
      ensures Valid() && |out| == (if n < |old(bytes)| then n else |old(bytes)|)
      ensures old(bytes) == out + bytes
    {
      out := [];
      var i := 0;
      while i < n
        invariant Valid() && i == |out| <= n && old(bytes) == out + bytes
      {
        var empty := IsEmpty();
        if empty {
          return;
        }
        var b := Get();
        out := out + [b];
        i := i + 1;
      }
    }
  }
}
