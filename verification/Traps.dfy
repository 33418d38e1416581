/** What the kernel itself stores in user memory: trap contexts (src/trap/context.rs) and the exit code
    of a reaped child (src/syscall/process.rs:222). */
module Traps {
  import opened Address
  import opened Frames
  import opened FrameAllocator
  import opened PageTables
  import opened UserAccess
  import opened Isolation

  // ---- trap contexts ----

  // The page below the trampoline; its first 37 words are the TrapContext.
  const TRAP_VPN := VPNS - 2

  // Word indices of x[2], x[4], x[10], sstatus, sepc, kernel_satp, kernel_sp and trap_handler.
  const SP := 2
  const TP := 4
  const A0 := 10
  const SSTATUS := 32
  const SEPC := 33
  const KERNEL_SATP := 34
  const KERNEL_SP := 35
  const TRAP_HANDLER := 36

  // usize.
  type Usize = x: int | 0 <= x < WORD

  // sstatus as a trap from user mode or set_spp(User) leaves it: bit 8, the previous privilege, is 0, and so
  // is bit 1, as interrupts are off in the kernel.
  function UserStatus(x: nat): (r: nat)
    ensures r <= x && Quiet(r) && UserBits(x, r)
  {
    var low, high := x % 256, x / 512;
    LowClear(low);
    StatusHalves(low - low / 2 % 2 * 2, 2 * high);
    BitsMoved(x);
    low - low / 2 % 2 * 2 + 256 * (2 * high)
  }

  // r is x without bits 1 and 8, and all other bits are those of x.
  predicate UserBits(x: nat, r: nat) { r + x / 2 % 2 * 2 + x / 256 % 2 * 256 == x && Quiet(r) }

  lemma {:induction false} BitsMoved(x: nat)
    ensures x == x % 256 + x / 256 % 2 * 256 + x / 512 * 512 && x / 2 % 2 == x % 256 / 2 % 2
  {
    var q, r := x / 256, x % 256;
    assert x == 256 * q + r;
    Div512(q, r);
    SecondBit(64 * q, r);
  }

  lemma {:induction false} Div512(q: nat, r: nat)
    requires r < 256
    ensures (256 * q + r) / 512 == q / 2 && q == q / 2 * 2 + q % 2
  {
    assert 256 * q + r == 512 * (q / 2) + (256 * (q % 2) + r);
  }

  lemma {:induction false} LowHigh(b: Byte, x: nat)
    ensures (b + 256 * x) % 256 == b && (b + 256 * x) / 256 == x
  {
  }

  lemma {:induction false} LowClear(a: Byte)
    ensures 0 <= a - a / 2 % 2 * 2 && (a - a / 2 % 2 * 2) / 2 % 2 == 0
  {
  }

  lemma {:induction false} StatusHalves(a: Byte, y: nat)
    ensures Quiet(a + 256 * y) <==> y % 2 == 0 && a / 2 % 2 == 0
  {
    LowHigh(a, y);
    assert (a + 2 * (128 * y)) / 2 == a / 2 + 128 * y;
    assert (a / 2 + 2 * (64 * y)) % 2 == a / 2 % 2;
  }

  // The way back to the user takes no interrupt and ends in user mode.
  predicate Quiet(status: nat) { status / 256 % 2 == 0 && status / 2 % 2 == 0 }

  // The stores into a trap context: fork changes two words of the copy, app_init_context writes all
  // 37, and a trap saves what the user had in registers 1..3 and 5..31, sstatus and sepc.
  datatype TrapInit =
    | ForkReturn
    | AppStart(entry: nat, sp: nat, satp: nat, status: nat, handler: nat)
    | Save(regs: seq<Usize>)

  predicate Words(i: TrapInit) {
    match i
    case ForkReturn => true
    case AppStart(entry, sp, satp, status, handler) =>
      entry < WORD && sp < WORD && satp < WORD && status < WORD && handler < WORD
    case Save(_) => true
  }

  function AppWord(i: TrapInit, kernelSp: nat, k: nat): nat
    requires i.AppStart?
  {
    if k == SP then i.sp
    else if k == SSTATUS then UserStatus(i.status)
    else if k == SEPC then i.entry
    else if k == KERNEL_SATP then i.satp
    else if k == KERNEL_SP then kernelSp
    else if k == TRAP_HANDLER then i.handler
    else 0
  }

  // Word k of the context after the stores, if they reach it.
  function NewWord(i: TrapInit, kernelSp: nat, k: nat): Option<nat> {
    match i
    case ForkReturn => if k == A0 then Some(0) else if k == KERNEL_SP then Some(kernelSp) else None
    case AppStart(_, _, _, _, _) => if k <= TRAP_HANDLER then Some(AppWord(i, kernelSp, k)) else None
    case Save(regs) =>
      if k == 0 || k == TP || k > SEPC || k >= |regs| then None
      else if k == SSTATUS then Some(UserStatus(regs[k])) else Some(regs[k])
  }

  // The stores into the first n words.
  function TrapWritten(page: Page, i: TrapInit, kernelSp: nat, n: nat): Page
    requires n <= 37
  {
    if n == 0 then page
    else
      var q := TrapWritten(page, i, kernelSp, n - 1);
      var w := NewWord(i, kernelSp, n - 1);
      if w.None? then q else SetWord(q, n - 1, w.value)
  }

  function TrapPage(page: Page, i: TrapInit, kernelSp: nat): Page { TrapWritten(page, i, kernelSp, 37) }

  lemma {:induction false} TrapWrittenWord(page: Page, i: TrapInit, kernelSp: nat, n: nat, k: nat)
    requires Words(i) && kernelSp < WORD && n <= 37 && k < 512
    ensures var w := NewWord(i, kernelSp, k);
            Word(TrapWritten(page, i, kernelSp, n), k) == if k < n && w.Some? then w.value else Word(page, k)
  {
    hide Word, SetWord;
    if n > 0 {
      TrapWrittenWord(page, i, kernelSp, n - 1, k);
      var w := NewWord(i, kernelSp, n - 1);
      if w.Some? { WordAfterSet(TrapWritten(page, i, kernelSp, n - 1), n - 1, w.value, k); }
    }
  }

  // The words of a trap page after the stores, from the arguments themselves: sp is word 2, a0 word 10,
  // sstatus word 32, sepc word 33, then kernel_satp, kernel_sp and trap_handler.
  ghost predicate Stored(page: Page, page': Page, i: TrapInit, kernelSp: nat) {
    match i
    case ForkReturn =>
      && Word(page', 10) == 0 && Word(page', 35) == kernelSp
      && forall k :: 0 <= k < 512 && k != 10 && k != 35 ==> Word(page', k) == Word(page, k)
    case AppStart(entry, sp, satp, status, handler) =>
      && StartsAt(page', entry, sp, satp, kernelSp, handler) && UserBits(status, Word(page', 32))
      && forall k :: 37 <= k < 512 ==> Word(page', k) == Word(page, k)
    case Save(regs) =>
      forall k :: 0 <= k < 512 ==>
        if k == 0 || k == 4 || k >= 34 || k >= |regs| then Word(page', k) == Word(page, k)
        else if k == 32 then UserBits(regs[k], Word(page', k)) else Word(page', k) == regs[k]
  }

  // The program starts at `entry` on its stack, with all other registers zero, and traps into the kernel.
  ghost predicate StartsAt(page: Page, entry: nat, sp: nat, satp: nat, kernelSp: nat, handler: nat) {
    && Word(page, 2) == sp && Word(page, 33) == entry
    && Word(page, 34) == satp && Word(page, 35) == kernelSp && Word(page, 36) == handler
    && forall k :: 0 <= k < 32 && k != 2 ==> Word(page, k) == 0
  }

  // A fork changes the return value and the kernel stack pointer, and no other word of the page; a
  // fresh program gets its whole context; a trap saves what the user had.
  lemma {:induction false} TrapPageWord(page: Page, i: TrapInit, kernelSp: nat, k: nat)
    requires Words(i) && kernelSp < WORD && k < 512
    ensures var w := NewWord(i, kernelSp, k);
            Word(TrapPage(page, i, kernelSp), k) == if w.Some? then w.value else Word(page, k)
  {
    hide Word, SetWord;
    TrapWrittenWord(page, i, kernelSp, 37, k);
  }

  lemma {:induction false} TrapPageStored(page: Page, i: TrapInit, kernelSp: nat)
    requires Words(i) && kernelSp < WORD
    ensures Stored(page, TrapPage(page, i, kernelSp), i, kernelSp)
  {
    hide Word, TrapPage;
    forall k: nat | k < 512
      ensures var w := NewWord(i, kernelSp, k);
              Word(TrapPage(page, i, kernelSp), k) == if w.Some? then w.value else Word(page, k)
    {
      TrapPageWord(page, i, kernelSp, k);
    }
  }

  // ---- what the trap path relies on ----

  // What trap.S must find in every context: the kernel's page table and its trap handler.
  datatype TrapEnv = TrapEnv(satp: nat, handler: nat)

  // A trap switches to the kernel's page table, the task's kernel stack and the handler, and the way
  // back ends in user mode without another trap.
  ghost predicate TrapWords(page: Page, e: TrapEnv, kernelSp: nat) {
    && Word(page, KERNEL_SATP) == e.satp && Word(page, KERNEL_SP) == kernelSp && Word(page, TRAP_HANDLER) == e.handler
    && Quiet(Word(page, SSTATUS))
  }

  // The stores leave a context a trap can use, given what they start from.
  ghost predicate Sound(page: Page, i: TrapInit, e: TrapEnv, kernelSp: nat) {
    match i
    case ForkReturn => exists k :: TrapWords(page, e, k)
    case AppStart(_, _, satp, _, handler) => satp == e.satp && handler == e.handler
    case Save(_) => TrapWords(page, e, kernelSp)
  }

  lemma {:induction false} TrapPageSound(page: Page, page': Page, i: TrapInit, e: TrapEnv, kernelSp: nat)
    requires Stored(page, page', i, kernelSp) && Sound(page, i, e, kernelSp)
    ensures TrapWords(page', e, kernelSp)
  {
    hide Word;
  }

  // The bytes of the trap page those words depend on: the two with the interrupt enable and the previous
  // privilege, and three whole words.
  const STATUS_LO := 256
  const STATUS_HI := 258
  const GUARD_LO := 272
  const GUARD_HI := 296

  predicate Guarded(o: nat) { STATUS_LO <= o < STATUS_HI || GUARD_LO <= o < GUARD_HI }

  ghost predicate SameGuard(p: Page, q: Page) {
    forall o: nat :: Guarded(o) ==> q[o] == p[o]
  }

  lemma {:induction false} StatusBits(page: Page)
    ensures Quiet(Word(page, SSTATUS)) <==> page[257] % 2 == 0 && page[256] / 2 % 2 == 0
  {
    var w := page[256..264];
    assert w[0] == page[256] && w[1..][0] == page[257];
    assert FromLittle(w) == w[0] + 256 * FromLittle(w[1..]);
    assert FromLittle(w[1..]) == w[1..][0] + 256 * FromLittle(w[1..][1..]);
    StatusHalves(w[0], FromLittle(w[1..]));
  }

  lemma {:induction false} GuardKeeps(p: Page, q: Page, e: TrapEnv, kernelSp: nat)
    requires SameGuard(p, q) && TrapWords(p, e, kernelSp)
    ensures TrapWords(q, e, kernelSp)
  {
    hide Word, Quiet;
    StatusBits(p);
    StatusBits(q);
    assert Guarded(256) && Guarded(257);
    forall k | 34 <= k < 37 ensures Word(q, k) == Word(p, k) { SameWord(p, q, k); }
  }

  lemma {:induction false} SameWord(p: Page, q: Page, k: nat)
    requires SameGuard(p, q) && 34 <= k < 37
    ensures Word(q, k) == Word(p, k)
  {
    assert forall o: nat :: 8 * k <= o < 8 * k + 8 ==> Guarded(o);
    assert q[8 * k .. 8 * k + 8] == p[8 * k .. 8 * k + 8];
  }

  // A store at the addresses [lo, hi) of a space reaches those bytes.
  predicate HitsGuard(lo: nat, hi: nat) {
    var trap := TRAP_VPN * PAGE_SIZE;
    && lo < hi
    && ((lo < trap + STATUS_HI && trap + STATUS_LO < hi) || (lo < trap + GUARD_HI && trap + GUARD_LO < hi))
  }

  // In the frames of space `id`, only the trap page changed, and as Stored says.
  ghost predicate OnlyTrap(id: nat, s: Store, s': Store, i: TrapInit, kernelSp: nat) {
    forall f :: f in s.owner && s.owner[f].id == id ==>
      if s.owner[f] == Data(id, TRAP_VPN) then Stored(At(s.mem, f), At(s'.mem, f), i, kernelSp)
      else At(s'.mem, f) == At(s.mem, f)
  }

  // ---- the exit code ----

  // An i32 in memory.
  function CodeBytes(code: int): (d: seq<Byte>)
    ensures |d| == 4
  {
    ToLittle(code % 0x1_0000_0000, 4)
  }

  // `*ptr = code` for a physical pointer: four bytes, wherever they lie.
  function StoreCode(mem: Memory, pa: nat, code: int): Memory {
    Pokes(mem, [pa, pa + 1, pa + 2, pa + 3], CodeBytes(code))
  }

  // The frames the store writes.
  function Touched(pa: nat): set<nat> { {Floor(pa), Floor(pa + 3)} }

  lemma {:induction false} TouchedPages(pa: nat)
    ensures Floor(pa) <= Floor(pa + 1) <= Floor(pa + 2) <= Floor(pa + 3) <= Floor(pa) + 1
    ensures Offset(pa) <= 4092 ==> Floor(pa + 3) == Floor(pa)
    ensures Offset(pa) > 4092 ==> Floor(pa + 3) == Floor(pa) + 1
  {
  }

  lemma {:induction false} PokesElsewhere(mem: Memory, a: seq<nat>, d: seq<Byte>, f: nat)
    requires |a| == |d| && forall k :: 0 <= k < |a| ==> Floor(a[k]) != f
    ensures At(Pokes(mem, a, d), f) == At(mem, f)
  {
    hide Floor, Offset;
    if a != [] { PokesElsewhere(mem, a[..|a| - 1], d[..|a| - 1], f); }
  }

  lemma {:induction false} StoreElsewhere(mem: Memory, pa: nat, code: int, f: nat)
    requires f !in Touched(pa)
    ensures At(StoreCode(mem, pa, code), f) == At(mem, f)
  {
    hide Floor, Pokes, CodeBytes;
    TouchedPages(pa);
    PokesElsewhere(mem, [pa, pa + 1, pa + 2, pa + 3], CodeBytes(code), f);
  }

  lemma {:induction false} StoredByte(mem: Memory, pa: nat, code: int, k: nat)
    requires k < 4
    ensures Peek(StoreCode(mem, pa, code), pa + k) == CodeBytes(code)[k]
  {
    hide Pokes, CodeBytes, Peek;
    PokesRead(mem, [pa, pa + 1, pa + 2, pa + 3], CodeBytes(code), k);
  }

  // The four bytes at pa are the code, as an i32, lowest byte first.
  ghost predicate HoldsCode(mem: Memory, pa: nat, code: int) {
    FromLittle([Peek(mem, pa), Peek(mem, pa + 1), Peek(mem, pa + 2), Peek(mem, pa + 3)]) == code % 0x1_0000_0000
  }

  // Only the four bytes at pa changed.
  ghost predicate OnlyCode(mem: Memory, mem': Memory, pa: nat) {
    forall x: nat :: x < pa || pa + 4 <= x ==> Peek(mem', x) == Peek(mem, x)
  }

  lemma {:induction false} CodeStored(mem: Memory, pa: nat, code: int)
    ensures HoldsCode(StoreCode(mem, pa, code), pa, code) && OnlyCode(mem, StoreCode(mem, pa, code), pa)
  {
    hide StoreCode, CodeBytes, Peek;
    forall k: nat | k < 4 ensures Peek(StoreCode(mem, pa, code), pa + k) == CodeBytes(code)[k] {
      StoredByte(mem, pa, code, k);
    }
    CodeValue(code);
    var m := StoreCode(mem, pa, code);
    assert [Peek(m, pa), Peek(m, pa + 1), Peek(m, pa + 2), Peek(m, pa + 3)] == CodeBytes(code);
    forall x: nat | x < pa || pa + 4 <= x ensures Peek(StoreCode(mem, pa, code), x) == Peek(mem, x) {
      CodeElsewhere(mem, pa, code, x);
    }
  }

  lemma {:induction false} CodeElsewhere(mem: Memory, pa: nat, code: int, x: nat)
    requires x < pa || pa + 4 <= x
    ensures Peek(StoreCode(mem, pa, code), x) == Peek(mem, x)
  {
    hide Pokes, CodeBytes, Peek;
    PokesFrame(mem, [pa, pa + 1, pa + 2, pa + 3], CodeBytes(code), x);
  }

  lemma {:induction false} CodeValue(code: int)
    ensures FromLittle(CodeBytes(code)) == code % 0x1_0000_0000
  {
    assert Pow256(2) == 65536;
    assert Pow256(4) == 65536 * 65536;
    LittleRoundTrip(code % 0x1_0000_0000, 4);
  }

  // A code whose bytes are all b.
  function Loud(b: Byte): int { b * 0x101_0101 }

  lemma {:induction false} LittleCons(b: Byte, x: nat, n: nat)
    ensures ToLittle(b + 256 * x, n + 1) == [b] + ToLittle(x, n)
  {
    LowHigh(b, x);
  }

  lemma {:induction false} LoudBytes(b: Byte)
    ensures CodeBytes(Loud(b)) == [b, b, b, b]
  {
    hide ToLittle;
    var c2: nat := b + 256 * b;
    var c1: nat := b + 256 * c2;
    LittleCons(b, c1, 3);
    LittleCons(b, c2, 2);
    LittleCons(b, b, 1);
    LittleCons(b, 0, 0);
    assert |ToLittle(0, 0)| == 0;
    assert b + 256 * c1 == Loud(b) == Loud(b) % 0x1_0000_0000;
  }

  // Whatever the code, the store stays among the frames of `ids` and free ones.
  ghost predicate StaysHome(ids: set<nat>, s: Store, pa: nat) {
    forall code: int :: Confined(ids, s, Store(StoreCode(s.mem, pa, code), s.owner))
  }

  // It does so if and only if no frame it touches is held by anyone else.
  lemma {:induction false} StoreConfinedExactly(ids: set<nat>, s: Store, pa: nat)
    ensures StaysHome(ids, s, pa) <==> forall f :: f in Touched(pa) && f in s.owner ==> s.owner[f].id in ids
  {
    hide StoreCode, CodeBytes, Floor, Offset;
    if forall f :: f in Touched(pa) && f in s.owner ==> s.owner[f].id in ids {
      forall code: int ensures Confined(ids, s, Store(StoreCode(s.mem, pa, code), s.owner)) {
        StoreConfined(ids, s, pa, code);
      }
    } else {
      var f :| f in Touched(pa) && f in s.owner && s.owner[f].id !in ids;
      var code := Noticed(s.mem, pa, f);
      assert !Confined(ids, s, Store(StoreCode(s.mem, pa, code), s.owner));
    }
  }

  // From a frame of `ids`: the bytes must end in it, or the next frame be free or theirs too.
  lemma {:induction false} SpillsAt(ids: set<nat>, s: Store, f: nat, off: nat)
    requires f in s.owner && s.owner[f].id in ids && off < PAGE_SIZE
    ensures StaysHome(ids, s, f * PAGE_SIZE + off) <==> off <= 4092 || f + 1 !in s.owner || s.owner[f + 1].id in ids
  {
    hide StaysHome;
    var pa := f * PAGE_SIZE + off;
    StoreConfinedExactly(ids, s, pa);
    assert Offset(pa) == off && Floor(pa) == f;
    TouchedPages(pa);
    assert Touched(pa) == if off <= 4092 then {f} else {f, f + 1};
  }

  lemma {:induction false} StoreConfined(ids: set<nat>, s: Store, pa: nat, code: int)
    requires forall f :: f in Touched(pa) && f in s.owner ==> s.owner[f].id in ids
    ensures Confined(ids, s, Store(StoreCode(s.mem, pa, code), s.owner))
  {
    hide StoreCode, Touched;
    forall f | f !in Touched(pa) ensures At(StoreCode(s.mem, pa, code), f) == At(s.mem, f) {
      StoreElsewhere(s.mem, pa, code, f);
    }
  }

  // Some code changes a touched frame.
  lemma {:induction false} Noticed(mem: Memory, pa: nat, f: nat) returns (code: int)
    requires f in Touched(pa)
    ensures At(StoreCode(mem, pa, code), f) != At(mem, f)
  {
    hide StoreCode, CodeBytes, Floor, Offset;
    var k := if f == Floor(pa) then 0 else 3;
    var b: Byte := if Peek(mem, pa + k) == 0 then 1 else 0;
    code := Loud(b);
    LoudBytes(b);
    StoredByte(mem, pa, code, k);
  }
}
