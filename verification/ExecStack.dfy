/** The argument pushes of exec.c through copyout of vm.c, on the user stack above a guard page.
    copyout stores into the frames that the page tables name; what was pushed is what the new
    program reads through them. */
module ExecStack {
  import opened Optional
  import opened PageTree
  import opened PageTable
  import opened AddressSpace
  import opened PageBytes
  import opened UserBytes
  import opened UserPages
  import opened PageWalk

  const MAXARG: nat := 32
  const NUL: Byte := 0
  const FAKE_PC: nat := 0xFFFF_FFFF_FFFF_FFFF

  /** copyout succeeds, meets a page the user may not access, or meets a page without a page
      table, whose entry uva2ka reads without looking. */
  datatype CopyResult = Copied | Denied | Fault

  /** Page p holds one of the n bytes from va on. */
  predicate Touches(va: nat, n: nat, p: nat) { n > 0 && va / PAGE <= p && p * PAGE < va + n }

  ghost predicate Reachable(s: State, space: nat, va: nat, n: nat) {
    forall p: nat | Touches(va, n, p) :: Accessible(s, space, p)
  }

  /** A range copyout can be asked for: user addresses, or a start that wrapped around. */
  predicate Range(va: nat, n: nat) { va + n <= USER_END || TOP <= va < ADDRESS_END }

  /** One round of copyout, for the page that holds byte `done` of the data. */
  method CopyPage(m: Machine, space: nat, va: nat, data: seq<Byte>, done: nat) returns (r: CopyResult, n: nat)
    requires Ok(m.S()) && Key(space, Root) in m.at && done < |data|
    requires Range(va, |data|) && (va >= USER_END ==> done == 0)
    modifies m
    ensures r == Copied <==> Accessible(old(m.S()), space, (va + done) / PAGE)
    ensures r == Copied ==> 0 < n <= PAGE - (va + done) % PAGE && done + n <= |data|
    ensures r == Copied ==> done + n < |data| ==> (va + done + n) % PAGE == 0
    ensures r == Copied ==> Stored(old(m.S()), m.S(), space, va + done, data[done..done + n], n)
    ensures r != Copied ==> m.S() == old(m.S())
    ensures va >= USER_END ==> r == Fault
  {
    var at := va + done;
    var page := at / PAGE * PAGE;
    n := 0;
    PageStart(at);
    var k := Uva2ka(m, space, page);
    if k.NoTable? {
      return Fault, n;
    }
    if k.Refused? {
      return Denied, n;
    }
    n := PAGE - at % PAGE;
    if n > |data| - done {
      n := |data| - done;
    }
    PieceEnds(at, n);
    StoreInto(m, space, k.f, va, data, done, n);
    r := Copied;
  }

  lemma PageStart(at: nat)
    ensures at / PAGE * PAGE <= at && at / PAGE * PAGE / PAGE == at / PAGE && (at >= TOP ==> at / PAGE * PAGE >= TOP)
  {
  }

  lemma PieceEnds(at: nat, n: nat)
    ensures n == PAGE - at % PAGE ==> (at + n) % PAGE == 0
  {
  }

  /** The memmove of one round, into frame f. */
  method StoreInto(m: Machine, ghost space: nat, f: nat, va: nat, data: seq<Byte>, done: nat, n: nat)
    requires Ok(m.S()) && done + n <= |data| && 0 < n <= PAGE - (va + done) % PAGE
    requires Accessible(m.S(), space, (va + done) / PAGE) && f == Pte(m.S(), space, (va + done) / PAGE).frame
    modifies m
    ensures Stored(old(m.S()), m.S(), space, va + done, data[done..done + n], n)
  {
    ghost var s := m.S();
    PageOwner(s, space, (va + done) / PAGE);
    FrameWords(s, f);
    var page := MoveIn(m.mem[f], (va + done) % PAGE, data, done, n);
    PieceStored(s, space, va, data, done, n, page);
    m.mem := m.mem[f := page];
    assert m.S() == Filled(s, f, page);
  }

  lemma FrameWords(s: State, f: nat)
    requires Ok(s) && f in s.owner
    ensures f in s.mem && |s.mem[f]| == SLOTS
  {
    Open(s);
  }

  /** copyout: the data is in place exactly when every page it touches is accessible; otherwise a
      beginning of it is. A start that wrapped around faults before anything is stored. */
  method CopyOut(m: Machine, space: nat, va: nat, data: seq<Byte>) returns (r: CopyResult, ghost n: nat)
    requires Ok(m.S()) && Key(space, Root) in m.at && Range(va, |data|)
    modifies m
    ensures r == Copied <==> Reachable(old(m.S()), space, va, |data|)
    ensures n <= |data| && Stored(old(m.S()), m.S(), space, va, data, n) && (r == Copied ==> n == |data|)
    ensures va >= USER_END && data != [] ==> r == Fault && n == 0
  {
    ghost var s := m.S();
    var done := 0;
    NothingStored(s, space, va, data);
    while done < |data|
      invariant 0 <= done <= |data| && (va >= USER_END ==> done == 0)
      invariant 0 < done < |data| ==> (va + done) % PAGE == 0
      invariant Stored(s, m.S(), space, va, data, done) && Reachable(s, space, va, done)
    {
      ghost var t := m.S();
      assert Touches(va, |data|, (va + done) / PAGE);
      assert Pte(t, space, (va + done) / PAGE) == Pte(s, space, (va + done) / PAGE);
      var k;
      r, k := CopyPage(m, space, va, data, done);
      if r != Copied {
        n := done;
        return;
      }
      StoredMore(s, t, m.S(), space, va, data, done, k);
      PagesMore(s, space, va, done, k);
      done := done + k;
    }
    r, n := Copied, done;
  }

  lemma PagesMore(s: State, space: nat, va: nat, done: nat, n: nat)
    requires 0 < n <= PAGE - (va + done) % PAGE && (done > 0 ==> (va + done) % PAGE == 0)
    requires Accessible(s, space, (va + done) / PAGE) && Reachable(s, space, va, done)
    ensures Reachable(s, space, va, done + n)
  {
    forall p: nat | Touches(va, done + n, p) ensures Accessible(s, space, p) {
      if !Touches(va, done, p) { assert p == (va + done) / PAGE; }
    }
  }

  // ------------------------------------------------------------------
  // What a space reads

  /** The first n bytes of a space. */
  ghost function View(s: State, space: nat, n: nat): seq<Byte> {
    seq(n, a requires 0 <= a < n => UserByte(s, space, a))
  }

  /** The data lies at va, and no other byte changed. */
  ghost predicate Laid(s: seq<Byte>, t: seq<Byte>, va: nat, data: seq<Byte>) {
    |t| == |s| && forall a | 0 <= a < |s| :: t[a] == if va <= a < va + |data| then data[a - va] else s[a]
  }

  lemma ViewLaid(s: State, t: State, space: nat, va: nat, data: seq<Byte>, n: nat)
    requires Stored(s, t, space, va, data, |data|)
    ensures Laid(View(s, space, n), View(t, space, n), va, data)
  {
    forall a | 0 <= a < n
      ensures View(t, space, n)[a] == if va <= a < va + |data| then data[a - va] else View(s, space, n)[a]
    {
      assert UserByte(t, space, a) == if va <= a < va + |data| then data[a - va] else UserByte(s, space, a);
    }
  }

  /** From s to t nothing changed but bytes of one space. */
  ghost predicate Within(s: State, t: State, space: nat) {
    && Ok(s) && Ok(t) && t.free == s.free && t.at == s.at && t.owner == s.owner && SameFlat(s, t)
    && (forall x: nat, a: nat {:trigger UserByte(t, x, a)} :: x != space ==> UserByte(t, x, a) == UserByte(s, x, a))
  }

  /** And of those only bytes from lo to hi. */
  ghost predicate WithinRange(s: State, t: State, space: nat, lo: nat, hi: nat) {
    Within(s, t, space) && forall a: nat | a < lo || hi <= a :: UserByte(t, space, a) == UserByte(s, space, a)
  }

  lemma StoredWithin(s: State, t: State, u: State, space: nat, va: nat, data: seq<Byte>, n: nat)
    requires Within(s, t, space) && n <= |data| && Stored(t, u, space, va, data, n)
    ensures Within(s, u, space)
  {
    forall x: nat, v: nat ensures Pte(u, x, v) == Pte(s, x, v) { assert Pte(u, x, v) == Pte(t, x, v); }
    forall x: nat, a: nat | x != space ensures UserByte(u, x, a) == UserByte(s, x, a) {
      assert UserByte(u, x, a) == UserByte(t, x, a);
    }
  }

  lemma StoredWithinRange(s: State, t: State, u: State, space: nat, sp: nat, va: nat, data: seq<Byte>, hi: nat)
    requires WithinRange(s, t, space, sp, hi) && Stored(t, u, space, va, data, |data|) && va <= sp && va + |data| <= hi
    ensures WithinRange(s, u, space, va, hi)
  {
    StoredWithin(s, t, u, space, va, data, |data|);
    forall a: nat | a < va || hi <= a ensures UserByte(u, space, a) == UserByte(s, space, a) {
      assert UserByte(u, space, a) == UserByte(t, space, a);
    }
  }

  // ------------------------------------------------------------------
  // The stack

  /** A push that ends in the stack page, or just below it, succeeds exactly if it begins in the
      stack page: below lies the guard page. */
  lemma PushInStackPage(s: State, space: nat, sz: nat, va: nat, n: nat)
    requires StackOk(s, space, sz) && n > 0 && sz - PAGE - 8 < va + n <= sz
    ensures Reachable(s, space, va, n) <==> sz - PAGE <= va
  {
    var guard, top := sz / PAGE - 2, sz / PAGE - 1;
    if va < sz - PAGE {
      if va + n > sz - PAGE || va / PAGE == guard {
        assert va / PAGE <= guard && Touches(va, n, guard);
      } else {
        assert Touches(va, n, guard);
      }
    } else {
      forall p: nat | Touches(va, n, p) ensures Accessible(s, space, p) { assert p == top; }
    }
  }

  function Align8(n: int): (r: int)
    ensures r % 8 == 0 && r <= n < r + 8
  {
    n - n % 8
  }

  /** The same on 64-bit addresses. */
  function Align8At(sp: nat, n: nat): (r: nat)
    requires sp < ADDRESS_END && n < ADDRESS_END
    ensures r == if n <= sp then Align8(sp - n) else ADDRESS_END + Align8(sp - n)
  {
    var d := (sp - n) % ADDRESS_END;
    d - d % 8
  }

  /** A string as it is pushed, with its NUL. */
  function CStr(s: seq<Byte>): seq<Byte> { s + [NUL] }

  /** Where the stack pointer of a stack that ends at sz stands after the strings, were it unbounded. */
  function SpAfter(sz: nat, argv: seq<seq<Byte>>): (sp: int)
    ensures sp <= sz
  {
    if argv == [] then sz else Align8(SpAfter(sz, argv[..|argv| - 1]) - |CStr(argv[|argv| - 1])|)
  }

  lemma {:induction false} SpFalls(sz: nat, argv: seq<seq<Byte>>, k: nat)
    requires k <= |argv|
    ensures SpAfter(sz, argv) <= SpAfter(sz, argv[..k])
    decreases |argv| - k
  {
    if k < |argv| {
      SpFalls(sz, argv, k + 1);
      SpNext(sz, argv, k);
    } else {
      assert argv[..k] == argv;
    }
  }

  lemma SpNext(sz: nat, argv: seq<seq<Byte>>, k: nat)
    requires k < |argv|
    ensures SpAfter(sz, argv[..k + 1]) == Align8(SpAfter(sz, argv[..k]) - |CStr(argv[k])|) < SpAfter(sz, argv[..k])
  {
    assert argv[..k + 1][..k] == argv[..k];
  }

  lemma SpBetween(sz: nat, argv: seq<seq<Byte>>, j: nat, k: nat)
    requires j <= k <= |argv|
    ensures SpAfter(sz, argv[..k]) <= SpAfter(sz, argv[..j])
  {
    SpFalls(sz, argv[..k], j);
    assert argv[..k][..j] == argv[..j];
  }

  /** The strings fit into the stack page, and at most MAXARG of them. */
  predicate StringsFit(sz: nat, argv: seq<seq<Byte>>) { |argv| <= MAXARG && sz - PAGE <= SpAfter(sz, argv) }

  /** So do the return address, the pointers to them and the null pointer. */
  predicate ArgumentsFit(sz: nat, argv: seq<seq<Byte>>) {
    |argv| <= MAXARG && sz - PAGE <= SpAfter(sz, argv) - 8 * (|argv| + 2)
  }

  /** The first string that does not fit is longer than all memory below it: sp wraps around. */
  predicate Wraps(sz: nat, argv: seq<seq<Byte>>, k: nat) {
    k < |argv| && k < MAXARG && StringsFit(sz, argv[..k]) && SpAfter(sz, argv[..k]) < |CStr(argv[k])|
  }

  ghost predicate SomeWraps(sz: nat, argv: seq<seq<Byte>>) { exists k: nat :: Wraps(sz, argv, k) }

  function Pointers(ws: seq<nat>): (r: seq<Byte>)
    ensures |r| == 8 * |ws|
  {
    if ws == [] then [] else Pointers(ws[..|ws| - 1]) + ByteDigits(ws[|ws| - 1], 8)
  }

  lemma {:induction false} PointersAt(ws: seq<nat>, k: nat)
    requires k < |ws|
    ensures Pointers(ws)[8 * k..8 * k + 8] == ByteDigits(ws[k], 8)
    decreases |ws|
  {
    var init := ws[..|ws| - 1];
    if k < |init| {
      PointersAt(init, k);
      assert Pointers(ws)[8 * k..8 * k + 8] == Pointers(init)[8 * k..8 * k + 8];
    }
  }

  /** The 64-bit number at a is w. */
  ghost predicate PointerAt(mem: seq<Byte>, a: nat, w: nat) {
    a + 8 <= |mem| && LittleEndian(mem[a..a + 8]) == w
  }

  /** From a on lie the numbers ws. */
  ghost predicate PointerTable(mem: seq<Byte>, a: nat, ws: seq<nat>) {
    forall k | 0 <= k < |ws| :: PointerAt(mem, a + 8 * k, ws[k])
  }

  lemma SliceOfSlice(mem: seq<Byte>, a: nat, n: nat, i: nat, j: nat)
    requires a + n <= |mem| && i <= j <= n
    ensures mem[a..a + n][i..j] == mem[a + i..a + j]
  {
    var l, r := mem[a..a + n][i..j], mem[a + i..a + j];
    forall k | 0 <= k < |l| ensures l[k] == r[k] { assert l[k] == mem[a..a + n][i + k]; }
  }

  lemma PointerReads(mem: seq<Byte>, a: nat, ws: seq<nat>, k: nat)
    requires a + 8 * |ws| <= |mem| && mem[a..a + 8 * |ws|] == Pointers(ws) && k < |ws| && ws[k] < ADDRESS_END
    ensures PointerAt(mem, a + 8 * k, ws[k])
  {
    PointersAt(ws, k);
    SliceOfSlice(mem, a, 8 * |ws|, 8 * k, 8 * k + 8);
    DigitsRead(mem, a + 8 * k, ws[k]);
  }

  lemma DigitsRead(mem: seq<Byte>, a: nat, w: nat)
    requires a + 8 <= |mem| && mem[a..a + 8] == ByteDigits(w, 8) && w < ADDRESS_END
    ensures PointerAt(mem, a, w)
  {
    WordLimit();
    DigitsSum(w, 8);
  }

  /** An array of pointers reads back, pointer by pointer. */
  lemma PointersRead(mem: seq<Byte>, a: nat, ws: seq<nat>)
    requires a + 8 * |ws| <= |mem| && mem[a..a + 8 * |ws|] == Pointers(ws) && forall k | 0 <= k < |ws| ::
      ws[k] < ADDRESS_END
    ensures PointerTable(mem, a, ws)
  {
    forall k | 0 <= k < |ws| ensures PointerAt(mem, a + 8 * k, ws[k]) { PointerReads(mem, a, ws, k); }
  }

  /** String s lies at ptr, whole and aligned. */
  ghost predicate InPlace(mem: seq<Byte>, ptr: nat, s: seq<Byte>) {
    ptr % 8 == 0 && ptr + |CStr(s)| <= |mem| && mem[ptr..ptr + |CStr(s)|] == CStr(s)
  }

  /** The strings pushed so far: each in place, in the stack page, below the ones before it. */
  ghost predicate Pushed(mem: seq<Byte>, sz: nat, sp: nat, argv: seq<seq<Byte>>, ptrs: seq<nat>) {
    && |ptrs| <= |argv| && sz <= |mem| && PAGE <= sz && sz - PAGE <= sp <= sz
    && (forall k | 0 <= k < |ptrs| ::
          sp <= ptrs[k] && ptrs[k] + |CStr(argv[k])| <= sz && InPlace(mem, ptrs[k], argv[k]))
    && (forall j, k | 0 <= j < k < |ptrs| :: ptrs[k] + |CStr(argv[k])| <= ptrs[j])
  }

  /** A write below sp leaves the strings alone. */
  lemma PushedKept(s: seq<Byte>, t: seq<Byte>, sz: nat, sp: nat, sp': nat, argv: seq<seq<Byte>>, ptrs: seq<nat>,
                   data: seq<Byte>)
    requires Pushed(s, sz, sp, argv, ptrs) && Laid(s, t, sp', data) && sp' + |data| <= sp && sz - PAGE <= sp'
    ensures Pushed(t, sz, sp', argv, ptrs) && t[sp'..sp' + |data|] == data
  {
  }

  /** One more string below the others. */
  lemma PushedMore(t: seq<Byte>, sz: nat, sp: nat, argv: seq<seq<Byte>>, ptrs: seq<nat>)
    requires Pushed(t, sz, sp, argv, ptrs) && |ptrs| < |argv| && InPlace(t, sp, argv[|ptrs|])
    requires sp + |CStr(argv[|ptrs|])| <= sz && forall k | 0 <= k < |ptrs| :: sp + |CStr(argv[|ptrs|])| <= ptrs[k]
    ensures Pushed(t, sz, sp, argv, ptrs + [sp])
  {
  }

  /** What exec's argument loop works on: a stack in the machine's tables, and arguments that are
      strings in memory, so no longer than the top slot of the address space. */
  ghost predicate Stack(s: State, space: nat, sz: nat, argv: seq<seq<Byte>>) {
    && Ok(s) && Key(space, Root) in s.at && StackOk(s, space, sz)
    && forall k | 0 <= k < |argv| :: |CStr(argv[k])| <= ADDRESS_END - TOP
  }

  /** Where the loop stands after |ptrs| arguments. */
  ghost predicate Standing(mem: seq<Byte>, sz: nat, sp: nat, argv: seq<seq<Byte>>, ptrs: seq<nat>) {
    |ptrs| <= MAXARG && sp % 8 == 0 && Pushed(mem, sz, sp, argv, ptrs) && sp == SpAfter(sz, argv[..|ptrs|])
  }

  lemma StackKept(s: State, t: State, space: nat, sz: nat, argv: seq<seq<Byte>>)
    requires Stack(s, space, sz, argv) && Within(s, t, space)
    ensures Stack(t, space, sz, argv)
  {
    assert Pte(t, space, sz / PAGE - 1) == Pte(s, space, sz / PAGE - 1);
    assert Pte(t, space, sz / PAGE - 2) == Pte(s, space, sz / PAGE - 2);
  }

  /** The next argument below sp: pushed exactly if it fits into the stack page. One longer than all
      that lies below sp makes the address wrap around, and copyout faults there. */
  method PushOne(m: Machine, space: nat, sz: nat, argv: seq<seq<Byte>>, sp: nat, ptrs: seq<nat>, ghost s: State)
    returns (r: CopyResult, at: nat)
    requires Stack(m.S(), space, sz, argv) && |ptrs| < |argv| && sp % 8 == 0
    requires Pushed(View(m.S(), space, sz), sz, sp, argv, ptrs) && WithinRange(s, m.S(), space, sp, sz)
    modifies m
    ensures Within(s, m.S(), space)
    ensures r == Copied <==> sz - PAGE <= Align8(sp - |CStr(argv[|ptrs|])|)
    ensures sp < |CStr(argv[|ptrs|])| ==> r == Fault
    ensures r == Copied ==> at == Align8(sp - |CStr(argv[|ptrs|])|) && WithinRange(s, m.S(), space, at, sz)
    ensures r == Copied ==> Pushed(View(m.S(), space, sz), sz, at, argv, ptrs + [at])
  {
    var data := CStr(argv[|ptrs|]);
    at := Align8At(sp, |data|);
    ghost var t := m.S();
    ghost var n;
    r, n := CopyOut(m, space, at, data);
    StoredWithin(s, t, m.S(), space, at, data, n);
    if |data| <= sp { PushInStackPage(t, space, sz, at, |data|); }
    if r == Copied {
      PushedOne(s, t, m.S(), space, sz, argv, sp, ptrs, at);
    }
  }

  lemma PushedOne(s: State, t: State, u: State, space: nat, sz: nat, argv: seq<seq<Byte>>, sp: nat, ptrs: seq<nat>,
                  at: nat)
    requires |ptrs| < |argv| && Pushed(View(t, space, sz), sz, sp, argv, ptrs) && WithinRange(s, t, space, sp, sz)
    requires Stored(t, u, space, at, CStr(argv[|ptrs|]), |CStr(argv[|ptrs|])|)
    requires at % 8 == 0 && sz - PAGE <= at && at + |CStr(argv[|ptrs|])| <= sp
    ensures Pushed(View(u, space, sz), sz, at, argv, ptrs + [at]) && WithinRange(s, u, space, at, sz)
  {
    var data := CStr(argv[|ptrs|]);
    ViewLaid(t, u, space, at, data, sz);
    PushedKept(View(t, space, sz), View(u, space, sz), sz, sp, at, argv, ptrs, data);
    PushedMore(View(u, space, sz), sz, at, argv, ptrs);
    StoredWithinRange(s, t, u, space, sp, at, data, sz);
  }

  lemma StandingNext(mem: seq<Byte>, sz: nat, sp: nat, argv: seq<seq<Byte>>, ptrs: seq<nat>, at: nat)
    requires |ptrs| < |argv| && |ptrs| < MAXARG && sp == SpAfter(sz, argv[..|ptrs|])
    requires at == Align8(sp - |CStr(argv[|ptrs|])|) && Pushed(mem, sz, at, argv, ptrs + [at])
    ensures Standing(mem, sz, at, argv, ptrs + [at])
  {
    SpNext(sz, argv, |ptrs|);
  }

  lemma StandingAll(mem: seq<Byte>, sz: nat, sp: nat, argv: seq<seq<Byte>>, ptrs: seq<nat>)
    requires Standing(mem, sz, sp, argv, ptrs) && |ptrs| == |argv|
    ensures sp == SpAfter(sz, argv) && StringsFit(sz, argv)
  {
    assert argv[..|ptrs|] == argv;
  }

  /** A string that wraps is the first one that does not fit. */
  lemma WrapsAt(sz: nat, argv: seq<seq<Byte>>, k: nat, w: nat)
    requires k < |argv| && Wraps(sz, argv, w) && sz >= PAGE
    requires sz - PAGE <= SpAfter(sz, argv[..k]) && SpAfter(sz, argv[..k + 1]) < sz - PAGE
    ensures k == w
  {
    if k < w {
      SpBetween(sz, argv, k + 1, w);
    } else if w < k {
      NotBelow(sz, argv, w, k);
    }
  }

  /** With the first k strings in the stack page none of them wraps. */
  lemma NotBelow(sz: nat, argv: seq<seq<Byte>>, w: nat, k: nat)
    requires w < k <= |argv| && sz - PAGE <= SpAfter(sz, argv[..k]) && sz >= PAGE
    ensures !Wraps(sz, argv, w)
  {
    SpNext(sz, argv, w);
    SpBetween(sz, argv, w + 1, k);
  }

  /** Where the loop stops because string k does not fit. */
  lemma StopsAt(sz: nat, argv: seq<seq<Byte>>, k: nat)
    requires k < |argv| && sz >= PAGE && sz - PAGE <= SpAfter(sz, argv[..k])
    requires Align8(SpAfter(sz, argv[..k]) - |CStr(argv[k])|) < sz - PAGE
    ensures !StringsFit(sz, argv) && (SomeWraps(sz, argv) ==> SpAfter(sz, argv[..k]) < |CStr(argv[k])|)
  {
    SpNext(sz, argv, k);
    SpFalls(sz, argv, k + 1);
    forall w: nat | Wraps(sz, argv, w) ensures k == w { WrapsAt(sz, argv, k, w); }
  }

  /** Where it stops because there are too many, or at the end. */
  lemma NoneWraps(sz: nat, argv: seq<seq<Byte>>, k: nat)
    requires k <= |argv| && (MAXARG <= k || k == |argv|) && sz >= PAGE && sz - PAGE <= SpAfter(sz, argv[..k])
    ensures !SomeWraps(sz, argv)
  {
    forall w: nat ensures !Wraps(sz, argv, w) { if w < k { NotBelow(sz, argv, w, k); } }
  }

  /** The loop of exec over the arguments: it succeeds exactly if they fit, and what it pushed
      lies in the stack page. */
  method PushStrings(m: Machine, space: nat, sz: nat, argv: seq<seq<Byte>>)
    returns (r: CopyResult, sp: nat, ptrs: seq<nat>)
    requires Stack(m.S(), space, sz, argv)
    modifies m
    ensures Within(old(m.S()), m.S(), space)
    ensures r == Copied <==> StringsFit(sz, argv)
    ensures r == Copied ==> |ptrs| == |argv| && sp == SpAfter(sz, argv) && sp % 8 == 0
    ensures r == Copied ==>
      Pushed(View(m.S(), space, sz), sz, sp, argv, ptrs) && WithinRange(old(m.S()), m.S(), space, sp, sz)
    ensures SomeWraps(sz, argv) ==> r == Fault
  {
    ghost var s := m.S();
    sp, ptrs := sz, [];
    GoingStart(s, space, sz, argv);
    while |ptrs| < |argv|
      invariant Going(s, m.S(), space, sz, sp, argv, ptrs)
      decreases |argv| - |ptrs|
    {
      if |ptrs| >= MAXARG {
        TooMany(s, m.S(), space, sz, sp, argv, ptrs);
        return Denied, sp, ptrs;
      }
      var at;
      r, at := PushNext(m, space, sz, argv, sp, ptrs, s);
      if r != Copied {
        return;
      }
      sp, ptrs := at, ptrs + [at];
    }
    AllPushed(s, m.S(), space, sz, sp, argv, ptrs);
    r := Copied;
  }

  /** The loop in progress. */
  ghost predicate Going(s: State, t: State, space: nat, sz: nat, sp: nat, argv: seq<seq<Byte>>, ptrs: seq<nat>) {
    && |ptrs| <= |argv| && Stack(t, space, sz, argv) && WithinRange(s, t, space, sp, sz)
    && Standing(View(t, space, sz), sz, sp, argv, ptrs)
  }

  lemma PageAligned(sz: nat)
    requires sz % PAGE == 0
    ensures sz % 8 == 0
  {
    assert sz == 8 * (512 * (sz / PAGE));
  }

  lemma GoingStart(s: State, space: nat, sz: nat, argv: seq<seq<Byte>>)
    requires Stack(s, space, sz, argv)
    ensures Going(s, s, space, sz, sz, argv, [])
  {
    PageAligned(sz);
    assert argv[..0] == [];
  }

  lemma TooMany(s: State, t: State, space: nat, sz: nat, sp: nat, argv: seq<seq<Byte>>, ptrs: seq<nat>)
    requires Going(s, t, space, sz, sp, argv, ptrs) && MAXARG <= |ptrs| < |argv|
    ensures Within(s, t, space) && !StringsFit(sz, argv) && !SomeWraps(sz, argv)
  {
    NoneWraps(sz, argv, |ptrs|);
  }

  lemma AllPushed(s: State, t: State, space: nat, sz: nat, sp: nat, argv: seq<seq<Byte>>, ptrs: seq<nat>)
    requires Going(s, t, space, sz, sp, argv, ptrs) && |ptrs| == |argv|
    ensures WithinRange(s, t, space, sp, sz) && Pushed(View(t, space, sz), sz, sp, argv, ptrs)
    ensures sp == SpAfter(sz, argv) && sp % 8 == 0 && StringsFit(sz, argv) && !SomeWraps(sz, argv)
  {
    StandingAll(View(t, space, sz), sz, sp, argv, ptrs);
    NoneWraps(sz, argv, |ptrs|);
  }

  /** One round of the loop. */
  method PushNext(m: Machine, space: nat, sz: nat, argv: seq<seq<Byte>>, sp: nat, ptrs: seq<nat>, ghost s: State)
    returns (r: CopyResult, at: nat)
    requires Going(s, m.S(), space, sz, sp, argv, ptrs) && |ptrs| < |argv| && |ptrs| < MAXARG
    modifies m
    ensures Within(s, m.S(), space)
    ensures r == Copied ==> Going(s, m.S(), space, sz, at, argv, ptrs + [at])
    ensures r != Copied ==> !StringsFit(sz, argv) && (SomeWraps(sz, argv) ==> r == Fault)
  {
    ghost var t := m.S();
    r, at := PushOne(m, space, sz, argv, sp, ptrs, s);
    if r == Copied {
      StandingNext(View(m.S(), space, sz), sz, sp, argv, ptrs, at);
      StackStays(s, t, m.S(), space, sz, argv);
    } else {
      StopsAt(sz, argv, |ptrs|);
    }
  }

  /** Two states that differ from a third only in bytes of the space have the same stack. */
  lemma StackStays(s: State, t: State, u: State, space: nat, sz: nat, argv: seq<seq<Byte>>)
    requires Stack(t, space, sz, argv) && Within(s, t, space) && Within(s, u, space)
    ensures Stack(u, space, sz, argv)
  {
    forall v: nat ensures Pte(u, space, v) == Pte(t, space, v) { assert Pte(t, space, v) == Pte(s, space, v); }
  }

  /** The stack exec leaves: below the strings the fake return address, the pointers to them and
      a null pointer. `args` is what the new program gets as argv. */
  ghost predicate Ready(mem: seq<Byte>, sz: nat, sp: nat, args: nat, argv: seq<seq<Byte>>, ptrs: seq<nat>) {
    && |ptrs| == |argv| && Pushed(mem, sz, sp, argv, ptrs) && args == sp + 8
    && (forall k | 0 <= k < |ptrs| :: sp + 8 * (|argv| + 2) <= ptrs[k]) && sp + 8 * (|argv| + 2) <= sz
    && PointerTable(mem, sp, [FAKE_PC] + ptrs + [0])
  }

  method PushArguments(m: Machine, space: nat, sz: nat, argv: seq<seq<Byte>>)
    returns (r: CopyResult, sp: nat, args: nat, ptrs: seq<nat>)
    requires Stack(m.S(), space, sz, argv)
    modifies m
    ensures Within(old(m.S()), m.S(), space)
    ensures r == Copied <==> ArgumentsFit(sz, argv)
    ensures r == Copied ==>
      Ready(View(m.S(), space, sz), sz, sp, args, argv, ptrs) && WithinRange(old(m.S()), m.S(), space, sp, sz)
    ensures SomeWraps(sz, argv) ==> r == Fault
  {
    ghost var s := m.S();
    r, sp, ptrs := PushStrings(m, space, sz, argv);
    args := 0;
    if r != Copied {
      return;
    }
    args := sp - (|argv| + 1) * 8;
    StackKept(s, m.S(), space, sz, argv);
    r, sp := PushPointers(m, space, sz, argv, sp, ptrs, s);
  }

  /** The last push: the array of pointers. */
  method PushPointers(m: Machine, space: nat, sz: nat, argv: seq<seq<Byte>>, sp: nat, ptrs: seq<nat>, ghost s: State)
    returns (r: CopyResult, at: nat)
    requires Stack(m.S(), space, sz, argv) && |ptrs| == |argv| <= MAXARG
    requires Pushed(View(m.S(), space, sz), sz, sp, argv, ptrs) && WithinRange(s, m.S(), space, sp, sz)
    modifies m
    ensures Within(s, m.S(), space)
    ensures at == sp - (|argv| + 2) * 8 && (r == Copied <==> sz - PAGE <= at)
    ensures r == Copied ==>
      Ready(View(m.S(), space, sz), sz, at, at + 8, argv, ptrs) && WithinRange(s, m.S(), space, at, sz)
  {
    var ustack := [FAKE_PC] + ptrs + [0];
    var data := Pointers(ustack);
    at := sp - (1 + |argv| + 1) * 8;
    ghost var t := m.S();
    ghost var n;
    r, n := CopyOut(m, space, at, data);
    StoredWithin(s, t, m.S(), space, at, data, n);
    PushInStackPage(t, space, sz, at, |data|);
    if r == Copied {
      ViewLaid(t, m.S(), space, at, data, sz);
      PushedKept(View(t, space, sz), View(m.S(), space, sz), sz, sp, at, argv, ptrs, data);
      PointersBelow(sz, sp, argv, ptrs, View(t, space, sz));
      PointersRead(View(m.S(), space, sz), at, ustack);
      StoredWithinRange(s, t, m.S(), space, sp, at, data, sz);
    }
  }

  lemma PointersBelow(sz: nat, sp: nat, argv: seq<seq<Byte>>, ptrs: seq<nat>, mem: seq<Byte>)
    requires Pushed(mem, sz, sp, argv, ptrs) && sz <= USER_END
    ensures forall k | 0 <= k < |ptrs| + 2 :: ([FAKE_PC] + ptrs + [0])[k] < ADDRESS_END
  {
    forall k | 0 <= k < |ptrs| + 2 ensures ([FAKE_PC] + ptrs + [0])[k] < ADDRESS_END {
      if 1 <= k <= |ptrs| { assert ([FAKE_PC] + ptrs + [0])[k] == ptrs[k - 1]; }
    }
  }

  /** How exec's stack comes out: no room for its two pages, arguments that do not fit, a fault in
      copyout, or ready. */
  datatype Built = NoRoom | TooLong | Faulted | Stacked(sz: nat, sp: nat, args: nat, ptrs: seq<nat>)

  /** The whole stack: from s to t the two pages were added and the arguments pushed; below sp the
      stack page reads as zeros, and outside the two pages every space reads as before. */
  ghost predicate StackBuilt(s: State, t: State, space: nat, sz: nat, sp: nat)
    requires 2 * PAGE <= sz
  {
    && StackMapped(s, t, space, sz)
    && (forall x: nat, a: nat {:trigger UserByte(t, x, a)} ::
          x != space || a < sz - 2 * PAGE || sz <= a ==> UserByte(t, x, a) == UserByte(s, x, a))
    && (forall a: nat | sz - PAGE <= a < sp :: UserByte(t, space, a) == 0)
  }

  lemma BuiltFrom(s: State, t: State, u: State, space: nat, sz: nat, sp: nat)
    requires 2 * PAGE <= sz && StackMapped(s, t, space, sz) && StackEmpty(s, t, space, sz)
    requires WithinRange(t, u, space, sp, sz) && sz - PAGE <= sp <= sz
    ensures StackBuilt(s, u, space, sz, sp)
  {
    forall x: nat, w: nat | x != space || w < sz / PAGE - 2 || sz / PAGE <= w ensures Pte(u, x, w) == Pte(s, x, w) {
      assert Pte(u, x, w) == Pte(t, x, w);
    }
    forall x: nat, a: nat | x != space || a < sz - 2 * PAGE || sz <= a ensures UserByte(u, x, a) == UserByte(s, x, a) {
      assert UserByte(t, x, a) == UserByte(s, x, a);
    }
  }

  /** What the new program finds with its own loads: argv is an array of pointers with a null pointer
      at its end, and behind each pointer its argument; the return address is no address. */
  ghost predicate ProgramFinds(mem: Memory, space: nat, sp: nat, args: nat, argv: seq<seq<Byte>>, ptrs: seq<nat>) {
    && |ptrs| == |argv| && args == sp + 8
    && LoadQuad(mem, space, sp) == Some(0xFFFF_FFFF_FFFF_FFFF) && LoadQuad(mem, space, args + 8 * |argv|) == Some(0)
    && (forall k | 0 <= k < |argv| :: LoadQuad(mem, space, args + 8 * k) == Some(ptrs[k]))
    && (forall k | 0 <= k < |argv| :: LoadBytes(mem, space, ptrs[k], |argv[k]| + 1) == Some(argv[k] + [0]))
  }

  lemma StackLoads(s: State, space: nat, sz: nat, a: nat, n: nat)
    requires Ok(s) && Key(space, Root) in s.at && StackOk(s, space, sz) && sz - PAGE <= a && a + n <= sz
    ensures LoadBytes(s.mem, space, a, n) == Some(View(s, space, sz)[a..a + n])
  {
    var b := View(s, space, sz)[a..a + n];
    forall k | 0 <= k < n ensures Shows(s, space, a + k, b[k]) {
      InStackPage(sz, a + k);
    }
    ProgramSeesBytes(s, space, a, b);
  }

  lemma InStackPage(sz: nat, a: nat)
    requires sz % PAGE == 0 && PAGE <= sz && sz - PAGE <= a < sz
    ensures a / PAGE == sz / PAGE - 1
  {
  }

  lemma QuadFound(s: State, space: nat, sz: nat, sp: nat, ws: seq<nat>, k: nat)
    requires Ok(s) && Key(space, Root) in s.at && StackOk(s, space, sz) && k < |ws|
    requires PointerTable(View(s, space, sz), sp, ws) && sz - PAGE <= sp && sp + 8 * |ws| <= sz
    ensures LoadQuad(s.mem, space, sp + 8 * k) == Some(ws[k])
  {
    assert PointerAt(View(s, space, sz), sp + 8 * k, ws[k]);
    StackLoads(s, space, sz, sp + 8 * k, 8);
  }

  lemma StackFound(s: State, space: nat, sz: nat, sp: nat, args: nat, argv: seq<seq<Byte>>, ptrs: seq<nat>)
    requires Ok(s) && Key(space, Root) in s.at && StackOk(s, space, sz)
    requires Ready(View(s, space, sz), sz, sp, args, argv, ptrs)
    ensures ProgramFinds(s.mem, space, sp, args, argv, ptrs)
  {
    TableFound(s, space, sz, sp, ptrs);
    forall k | 0 <= k < |argv| ensures LoadQuad(s.mem, space, args + 8 * k) == Some(ptrs[k]) {
      EntryFound(s, space, sz, sp, ptrs, k);
    }
    forall k | 0 <= k < |argv| ensures LoadBytes(s.mem, space, ptrs[k], |argv[k]| + 1) == Some(argv[k] + [0]) {
      StringFound(s, space, sz, sp, argv, ptrs, k);
    }
  }

  lemma TableFound(s: State, space: nat, sz: nat, sp: nat, ptrs: seq<nat>)
    requires Ok(s) && Key(space, Root) in s.at && StackOk(s, space, sz) && sz - PAGE <= sp
      && sp + 8 * (|ptrs| + 2) <= sz
    requires PointerTable(View(s, space, sz), sp, [FAKE_PC] + ptrs + [0])
    ensures LoadQuad(s.mem, space, sp) == Some(FAKE_PC) && LoadQuad(s.mem, space, sp + 8 + 8 * |ptrs|) == Some(0)
  {
    var ws := [FAKE_PC] + ptrs + [0];
    QuadFound(s, space, sz, sp, ws, 0);
    QuadFound(s, space, sz, sp, ws, |ptrs| + 1);
  }

  lemma EntryFound(s: State, space: nat, sz: nat, sp: nat, ptrs: seq<nat>, k: nat)
    requires Ok(s) && Key(space, Root) in s.at && StackOk(s, space, sz) && sz - PAGE <= sp
      && sp + 8 * (|ptrs| + 2) <= sz
    requires PointerTable(View(s, space, sz), sp, [FAKE_PC] + ptrs + [0]) && k < |ptrs|
    ensures LoadQuad(s.mem, space, sp + 8 + 8 * k) == Some(ptrs[k])
  {
    QuadFound(s, space, sz, sp, [FAKE_PC] + ptrs + [0], k + 1);
  }

  lemma StringFound(s: State, space: nat, sz: nat, sp: nat, argv: seq<seq<Byte>>, ptrs: seq<nat>, k: nat)
    requires Ok(s) && Key(space, Root) in s.at && StackOk(s, space, sz)
    requires Pushed(View(s, space, sz), sz, sp, argv, ptrs) && k < |ptrs|
    ensures LoadBytes(s.mem, space, ptrs[k], |argv[k]| + 1) == Some(argv[k] + [0])
  {
    StackLoads(s, space, sz, ptrs[k], |CStr(argv[k])|);
  }

  /** The stack from the two pages to the last pointer: with the pages there, it is ready exactly
      if the arguments fit into the upper one. The new program reads the pushed arguments through
      its page tables, and the rest of the stack page as zeros. */
  method BuildStack(m: Machine, space: nat, image: nat, argv: seq<seq<Byte>>) returns (r: Built)
    requires Ok(m.S()) && Key(space, Root) in m.at && image + (|m.free| + 1) * PAGE <= USER_END
    requires forall k | 0 <= k < |argv| :: |CStr(argv[k])| <= ADDRESS_END - TOP
    modifies m
    ensures r == NoRoom ==>
      m.free == [] || exists w :: image <= w * PAGE < image + 2 * PAGE && Present(Pte(old(m.S()), space, w))
    ensures r == TooLong || r == Faulted ==> !ArgumentsFit(StackEnd(image), argv)
    ensures r == TooLong ==> !SomeWraps(StackEnd(image), argv)
    ensures r.Stacked? ==> r.sz == StackEnd(image) && ArgumentsFit(r.sz, argv) && Ok(m.S())
    ensures r.Stacked? ==> Ready(View(m.S(), space, r.sz), r.sz, r.sp, r.args, argv, r.ptrs)
    ensures r.Stacked? ==> ProgramFinds(m.mem, space, r.sp, r.args, argv, r.ptrs)
    ensures r.Stacked? ==> StackOk(m.S(), space, r.sz) && StackBuilt(old(m.S()), m.S(), space, r.sz, r.sp)
  {
    ghost var s := m.S();
    var sz := StackPages(m, space, image);
    if sz.None? {
      return NoRoom;
    }
    ghost var t := m.S();
    var c, sp, args, ptrs := PushArguments(m, space, sz.value, argv);
    if c != Copied {
      return if c == Fault then Faulted else TooLong;
    }
    BuiltFrom(s, t, m.S(), space, sz.value, sp);
    StackKept(t, m.S(), space, sz.value, argv);
    StackFound(m.S(), space, sz.value, sp, args, argv, ptrs);
    return Stacked(sz.value, sp, args, ptrs);
  }
}
