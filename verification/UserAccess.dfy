/** Translation seen from outside a table: the hardware walk, and the kernel's access to
    user buffers through a token (src/mm/page_table.rs:155-329). */
module UserAccess {
  import opened Address
  import opened Frames
  import opened FrameAllocator
  import opened PageTables

  // ---- tokens ----

  // PageTable::token: mode 8 (Sv39) in the top four bits, root frame below.
  function Token(root: nat): (satp: nat) { 0x8000_0000_0000_0000 + root }

  // PageTable::from_token keeps the low 44 bits.
  function TokenRoot(satp: nat): (root: nat) { satp % PPNS }

  lemma {:induction false} TokenRoundTrip(root: nat)
    requires root < PPNS
    ensures TokenRoot(Token(root)) == root && Token(root) < WORD && Token(root) / 0x1000_0000_0000_0000 == 8
  {
    assert Token(root) == 0x8_0000 * PPNS + root;
  }

  // ---- the kernel's walk ----

  // PageTable::find_pte.
  method FindPte(mem: Memory, root: nat, vpn: nat) returns (r: Option<nat>)
    ensures r == Walk(mem, root, vpn)
  {
    hide Top, Second, Low, Word, IsValid, PpnOf;
    var idxs := Indexes(vpn);
    var ppn := root;
    var i := 0;
    r := None;
    while i < 3
      invariant 0 <= i <= 2
      invariant i == 0 ==> ppn == root
      invariant i >= 1 ==> IsValid(Word(At(mem, root), Top(vpn)))
      invariant i == 1 ==> ppn == PpnOf(Word(At(mem, root), Top(vpn)))
      invariant i == 2 ==> var e1 := Word(At(mem, PpnOf(Word(At(mem, root), Top(vpn)))), Second(vpn));
                           IsValid(e1) && ppn == PpnOf(e1)
    {
      var pte := Word(At(mem, ppn), idxs[i]);
      if i == 2 {
        r := Some(pte);
        break;
      }
      if !IsValid(pte) {
        return None;
      }
      ppn := PpnOf(pte);
      i := i + 1;
    }
  }

  // PageTable::find_vpn: does the table map this page?
  method FindVpn(mem: Memory, root: nat, vpn: nat, ghost id: nat, ghost s: Store, ghost t: Tables) returns (found: bool)
    requires Tree(id, s, t) && mem == s.mem && root == t[Root]
    ensures found <==> vpn % VPNS in View(mem, t)
  {
    hide Top, Second, Low, Word, IsValid, Tree, View, Walk;
    WalkFindsLeaf(id, s, t, vpn);
    LeafInView(mem, t, vpn);
    var r := FindPte(mem, root, vpn);
    return r.Some? && IsValid(r.value);
  }

  // PageTable::translate_va on a 39-bit address.
  function TranslateVa(mem: Memory, root: nat, va: nat): Option<nat> {
    var e := Walk(mem, root, Floor(va));
    if e.None? then None else Some(PpnOf(e.value) * PAGE_SIZE + Offset(va))
  }

  // ---- the hardware's walk: section 4.3.2 of the RISC-V Privileged Architecture, Sv39 ----

  function VpnField(vpn: nat, i: nat): (k: nat)
    requires i < 3
    ensures k < 512
  {
    if i == 2 then Top(vpn) else if i == 1 then Second(vpn) else Low(vpn)
  }

  // Steps 2 to 8, access rights and A/D bits left aside: None is a page fault.
  function Hardware(mem: Memory, a: nat, vpn: nat, i: nat): Option<nat>
    requires i < 3
    decreases i
  {
    // Bit 0 of the entry is V, then R, W and X; bits 10 to 53 are the frame number.
    var e := Word(At(mem, a), vpn / (if i == 2 then 0x40000 else if i == 1 then 512 else 1) % 512);
    var v, r, w, x, ppn := e % 2 == 1, e / 2 % 2 == 1, e / 4 % 2 == 1, e / 8 % 2 == 1, e / 1024 % 0x1000_0000_0000;
    if !v || (!r && w) then None
    else if r || x then
      var low := if i == 2 then 0x40000 else if i == 1 then 512 else 1;
      if ppn % low != 0 then None          // misaligned superpage
      else Some(ppn + vpn % low)
    else if i == 0 then None
    else Hardware(mem, ppn, vpn, i - 1)
  }

  // The same with the kernel's own reading of entries.
  lemma {:induction false} HardwareReads(mem: Memory, a: nat, vpn: nat, i: nat)
    requires i < 3
    ensures var e := Word(At(mem, a), VpnField(vpn, i)); var g := FlagsOf(e);
            Hardware(mem, a, vpn, i) ==
              if !Has(g, V) || (!Has(g, R) && Has(g, W)) then None
              else if Has(g, R) || Has(g, X) then
                var low := if i == 2 then 0x40000 else if i == 1 then 512 else 1;
                if PpnOf(e) % low != 0 then None else Some(PpnOf(e) + vpn % low)
              else if i == 0 then None else Hardware(mem, PpnOf(e), vpn, i - 1)
  {
    hide Word;
    var e := Word(At(mem, a), VpnField(vpn, i));
    FlagBits(e);
  }

  lemma {:induction false} FlagBits(e: nat)
    ensures var g := FlagsOf(e);
            && (Has(g, V) <==> e % 2 == 1) && (Has(g, R) <==> e / 2 % 2 == 1) && (Has(g, W) <==> e / 4 % 2 == 1)
            && (Has(g, X) <==> e / 8 % 2 == 1)
  {
    var q, r := e / 256, e % 256;
    assert e == 256 * q + r;
    LowBit(128 * q, r);
    SecondBit(64 * q, r);
    ThirdBit(32 * q, r);
    FourthBit(16 * q, r);
  }

  lemma {:induction false} LowBit(q: nat, r: nat)
    ensures (2 * q + r) % 2 == r % 2
  {
  }

  lemma {:induction false} SecondBit(q: nat, r: nat)
    ensures (4 * q + r) / 2 % 2 == r / 2 % 2
  {
    assert (4 * q + r) / 2 == 2 * q + r / 2;
    LowBit(q, r / 2);
  }

  lemma {:induction false} ThirdBit(q: nat, r: nat)
    ensures (8 * q + r) / 4 % 2 == r / 4 % 2
  {
    assert (8 * q + r) / 4 == 2 * q + r / 4;
    LowBit(q, r / 4);
  }

  lemma {:induction false} FourthBit(q: nat, r: nat)
    ensures (16 * q + r) / 8 % 2 == r / 8 % 2
  {
    assert (16 * q + r) / 8 == 2 * q + r / 8;
    LowBit(q, r / 8);
  }

  // A leaf the hardware takes: readable or executable, and not writable without being readable.
  predicate Usable(e: nat) {
    var g := FlagsOf(e);
    Has(g, V) && (Has(g, R) || Has(g, X)) && (Has(g, W) ==> Has(g, R))
  }

  // On every tree the hardware and the kernel agree: a page translates in hardware exactly
  // when it is mapped with a usable leaf, and then to the frame of that leaf.
  lemma {:induction false} HardwareAgrees(id: nat, s: Store, t: Tables, vpn: nat)
    requires Tree(id, s, t) && vpn < VPNS
    ensures Hardware(s.mem, t[Root], vpn, 2)
         == if vpn in View(s.mem, t) && Usable(View(s.mem, t)[vpn]) then Some(PpnOf(View(s.mem, t)[vpn])) else None
  {
    hide Top, Second, Low, Tree, Word, View, Walk;
    RootThere(id, s, t);
    LeafInView(s.mem, t, vpn);
    HardwareStep(id, s, t, Root, vpn, 2);
    if Mid(Top(vpn)) in t {
      HardwareStep(id, s, t, Mid(Top(vpn)), vpn, 1);
      if LeafPath(vpn) in t {
        HardwareReads(s.mem, t[LeafPath(vpn)], vpn, 0);
        assert Hardware(s.mem, t[LeafPath(vpn)], vpn, 0) ==
               (if Usable(LeafWord(s.mem, t, vpn)) then Some(PpnOf(LeafWord(s.mem, t, vpn))) else None);
      }
    }
  }

  // Interior entries carry V alone, so the hardware descends exactly where the tree does.
  lemma {:induction false} HardwareStep(id: nat, s: Store, t: Tables, p: Path, vpn: nat, i: nat)
    requires Tree(id, s, t) && p in t && !p.Leaf? && 1 <= i < 3
    ensures var c := Child(p, VpnField(vpn, i));
            Hardware(s.mem, t[p], vpn, i) == if c in t then Hardware(s.mem, t[c], vpn, i - 1) else None
  {
    hide Top, Second, Low, Tree, Word;
    var k := VpnField(vpn, i);
    HardwareReads(s.mem, t[p], vpn, i);
    LinkAt(id, s, t, p, k);
    if Child(p, k) in t {
      PteFlags(t[Child(p, k)], V);
    }
  }

  // ---- user buffers ----

  // A borrowed piece of one frame, `&mut frame[lo..hi]`.
  datatype Slice = Slice(frame: nat, lo: nat, hi: nat)

  // The physical addresses of one slice.
  ghost function Span(s: Slice): (a: seq<nat>)
    ensures s.lo <= s.hi ==> |a| == s.hi - s.lo
  {
    if s.lo <= s.hi then seq(s.hi - s.lo, k requires 0 <= k => s.frame * PAGE_SIZE + s.lo + k) else []
  }

  // The physical addresses of a list of slices, in order.
  ghost function Addresses(v: seq<Slice>): seq<nat> {
    if v == [] then [] else Addresses(v[..|v| - 1]) + Span(v[|v| - 1])
  }

  // The k-th address is the translation of ptr + k.
  ghost predicate Translates(mem: Memory, root: nat, ptr: nat, a: seq<nat>) {
    forall x :: ptr <= x < ptr + |a| ==> TranslateVa(mem, root, x) == Some(a[x - ptr])
  }

  // Where the next piece starts: the end of the page or of the buffer, whichever is first.
  // Both ends go through VirtAddr::from, the page end does not.
  function PieceEnd(start: nat, end: nat): nat {
    var page := (Floor(VirtAddr(start)) + 1) * PAGE_SIZE;
    if page < VirtAddr(end) then page else VirtAddr(end)
  }

  // The loops over a buffer advance while its end lies below 2^39.  Beyond, the truncated end never
  // catches up with the real one, and once there the loop stays there.
  lemma {:induction false} PieceAdvances(start: nat, end: nat)
    requires start < end
    ensures end < VA_SPACE ==> start < PieceEnd(start, end) <= end
    ensures end >= VA_SPACE ==> PieceEnd(start, end) <= VirtAddr(end) < end
    ensures PieceEnd(VirtAddr(end), end) == VirtAddr(end)
  {
  }

  // Where the loop stands after n rounds, if no panic stops it.
  ghost function After(start: nat, end: nat, n: nat): nat
    decreases n
  {
    if n == 0 then start else After(PieceEnd(start, end), end, n - 1)
  }

  // A buffer that ends at or beyond 2^39 keeps the loop busy for ever: the guard holds after any
  // number of rounds, and from some round on nothing moves.
  lemma {:induction false} NeverDone(start: nat, end: nat, n: nat)
    requires start < end && end >= VA_SPACE
    ensures After(start, end, n) < end
    decreases n
  {
    hide PieceEnd, VirtAddr;
    if n > 0 {
      PieceAdvances(start, end);
      NeverDone(PieceEnd(start, end), end, n - 1);
    }
  }

  lemma {:induction false} ComesToRest(start: nat, end: nat) returns (n: nat)
    requires start < end && end >= VA_SPACE
    ensures forall k :: n <= k ==> After(start, end, k) == VirtAddr(end)
    decreases if VirtAddr(start) < VirtAddr(end) then VirtAddr(end) - VirtAddr(start) + 1
              else if start == VirtAddr(end) then 0 else 1
  {
    var next := PieceEnd(start, end);
    PieceAdvances(start, end);
    if start == VirtAddr(end) {
      n := 0;
      forall k: nat ensures After(start, end, k) == VirtAddr(end) { Rests(end, k); }
    } else {
      Nearer(start, end);
      var m := ComesToRest(next, end);
      n := m + 1;
      forall k | n <= k ensures After(start, end, k) == VirtAddr(end) {
        assert After(next, end, k - 1) == VirtAddr(end);
      }
    }
  }

  lemma {:induction false} Rests(end: nat, k: nat)
    ensures After(VirtAddr(end), end, k) == VirtAddr(end)
  {
    if k > 0 { Rests(end, k - 1); }
  }

  // A round moves towards the truncated end, or lands on it.
  lemma {:induction false} Nearer(start: nat, end: nat)
    requires start < end && start != VirtAddr(end)
    ensures var next := PieceEnd(start, end);
            && next < VA_SPACE && VirtAddr(next) == next
            && (next == VirtAddr(end) || VirtAddr(start) < next < VirtAddr(end))
  {
  }

  // One piece lies in one page and covers [start, PieceEnd).
  function Piece(f: nat, start: nat, end: nat): (s: Slice)
  {
    var to := PieceEnd(start, end);
    Slice(f, Offset(VirtAddr(start)), if Offset(to) == 0 then PAGE_SIZE else Offset(to))
  }

  lemma {:induction false} PieceCovers(f: nat, start: nat, end: nat)
    requires start < end < VA_SPACE
    ensures var s := Piece(f, start, end);
            && s.lo < s.hi <= PAGE_SIZE && s.hi - s.lo == PieceEnd(start, end) - start
            && (forall x :: start <= x < PieceEnd(start, end) ==>
                Floor(x) == Floor(start) && Offset(x) == s.lo + (x - start))
  {
    var to := PieceEnd(start, end);
    PieceAdvances(start, end);
    assert start == Floor(start) * PAGE_SIZE + Offset(start);
    assert to == Floor(to) * PAGE_SIZE + Offset(to);
    if Offset(to) != 0 {
      assert to < (Floor(start) + 1) * PAGE_SIZE;
      assert Floor(to) == Floor(start);
    } else {
      assert Floor(start) < Floor(to) <= Floor(start) + 1;
    }
    forall x | start <= x < to ensures Floor(x) == Floor(start) && Offset(x) == Offset(start) + (x - start) {
      SamePage(start, x);
    }
  }

  lemma {:induction false} SamePage(a: nat, x: nat)
    requires a <= x < (Floor(a) + 1) * PAGE_SIZE
    ensures Floor(x) == Floor(a) && Offset(x) == Offset(a) + (x - a)
  {
    assert x == Floor(a) * PAGE_SIZE + (Offset(a) + (x - a)) && Offset(a) + (x - a) < PAGE_SIZE;
  }

  // Appending the next piece extends a correct list of addresses up to its end.
  lemma {:induction false} NextPiece(mem: Memory, root: nat, ptr: nat, a: seq<nat>, start: nat, end: nat)
    requires ptr <= start < end < VA_SPACE && Translates(mem, root, ptr, a) && |a| == start - ptr
    requires Walk(mem, root, Floor(start)).Some?
    ensures var s := Piece(PpnOf(Walk(mem, root, Floor(start)).value), start, end);
            && s.lo < s.hi <= PAGE_SIZE && s.hi - s.lo == PieceEnd(start, end) - start
            && Translates(mem, root, ptr, a + Span(s)) && |a + Span(s)| == PieceEnd(start, end) - ptr
  {
    hide Walk, PpnOf, Floor, Offset, PieceEnd;
    PieceCovers(PpnOf(Walk(mem, root, Floor(start)).value), start, end);
  }

  // How a call that goes through a user's pages ends: it returns, it panics on translate(..).unwrap(),
  // it panics because the kernel's own mapping does not let it at that frame, or it never returns.
  datatype Access = Done | Untranslated | Faults | NoReturn

  // Does the loop over [ptr, end) run on past 2^39?
  predicate RunsOn(ptr: nat, end: nat) { ptr < end && end >= VA_SPACE }

  // It does exactly if its condition holds after any number of rounds.
  lemma {:induction false} RunsOnExactly(ptr: nat, end: nat)
    ensures RunsOn(ptr, end) <==> forall n: nat :: After(ptr, end, n) < end
  {
    hide PieceEnd;
    if RunsOn(ptr, end) {
      forall n: nat ensures After(ptr, end, n) < end { NeverDone(ptr, end, n); }
    } else if ptr < end {
      GetsThere(ptr, end, end - ptr);
    } else {
      assert After(ptr, end, 0) == ptr;
    }
  }

  lemma {:induction false} GetsThere(start: nat, end: nat, n: nat)
    requires start <= end < VA_SPACE && end <= start + n
    ensures After(start, end, n) == end
    decreases n
  {
    hide PieceEnd;
    if n > 0 {
      if start < end { PieceAdvances(start, end); } else { EndStays(end); }
      GetsThere(PieceEnd(start, end), end, n - 1);
    }
  }

  lemma {:induction false} EndStays(end: nat)
    requires end < VA_SPACE
    ensures PieceEnd(end, end) == end
  {
  }

  // translated_byte_buffer.  It never returns normally exactly when RunsOn: then NeverDone and
  // ComesToRest say what its loop does, unless an untranslated page or a reversed slice stops it.
  method TranslatedByteBuffer(mem: Memory, token: nat, ptr: nat, len: nat) returns (o: Access, v: seq<Slice>)
    requires ptr < WORD
    ensures !o.Faults? && (o.NoReturn? <==> RunsOn(ptr, (ptr + len) % WORD))
    ensures o.Done? ==> Translates(mem, TokenRoot(token), ptr, Addresses(v))
    ensures o.Done? ==> |Addresses(v)| == if ptr < (ptr + len) % WORD then (ptr + len) % WORD - ptr else 0
    ensures o.Untranslated? <==>
              && !RunsOn(ptr, (ptr + len) % WORD)
              && exists x :: ptr <= x < (ptr + len) % WORD && TranslateVa(mem, TokenRoot(token), x).None?
    ensures o.Done? ==> forall s :: s in v ==> s.lo < s.hi <= PAGE_SIZE
  {
    hide Walk, PpnOf, Floor, Offset, VirtAddr, PieceEnd, Piece, Span, Translates;
    var root := TokenRoot(token);
    var start := ptr;
    var end := (ptr + len) % WORD;
    v := [];
    if RunsOn(ptr, end) { return NoReturn, v; }
    NoAddresses(mem, root, ptr);
    while start < end
      invariant ptr <= start && (ptr <= end ==> start <= end) && (end < ptr ==> start == ptr)
      invariant Translates(mem, root, ptr, Addresses(v)) && |Addresses(v)| == start - ptr
      invariant forall s :: s in v ==> s.lo < s.hi <= PAGE_SIZE
      decreases end - start
    {
      Small(start);
      var e := FindPte(mem, root, Floor(VirtAddr(start)));
      if e.None? {
        assert TranslateVa(mem, root, start).None?;
        return Untranslated, v;
      }
      PieceAdvances(start, end);
      NextPiece(mem, root, ptr, Addresses(v), start, end);
      ghost var v0 := v;
      v := v + [Piece(PpnOf(e.value), start, end)];
      assert v[..|v| - 1] == v0;
      start := PieceEnd(start, end);
    }
    AllTranslate(mem, root, ptr, Addresses(v));
    return Done, v;
  }

  lemma {:induction false} AllTranslate(mem: Memory, root: nat, ptr: nat, a: seq<nat>)
    requires Translates(mem, root, ptr, a)
    ensures forall x :: ptr <= x < ptr + |a| ==> TranslateVa(mem, root, x).Some?
  {
    forall x | ptr <= x < ptr + |a| ensures TranslateVa(mem, root, x).Some? {
      assert TranslateVa(mem, root, ptr + (x - ptr)) == Some(a[x - ptr]);
    }
  }

  lemma {:induction false} NoAddresses(mem: Memory, root: nat, ptr: nat)
    ensures Translates(mem, root, ptr, [])
  {
  }

  lemma {:induction false} Small(x: nat)
    ensures x < VA_SPACE ==> VirtAddr(x) == x
  {
  }

  // ---- writing through a token ----

  function Peek(mem: Memory, a: nat): Byte { At(mem, Floor(a))[Offset(a)] }

  function Poke(mem: Memory, a: nat, b: Byte): Memory { mem[Floor(a) := At(mem, Floor(a))[Offset(a) := b]] }

  function Pokes(mem: Memory, a: seq<nat>, d: seq<Byte>): Memory
    requires |a| == |d|
  {
    if a == [] then mem
    else Poke(Pokes(mem, a[..|a| - 1], d[..|a| - 1]), a[|a| - 1], d[|a| - 1])
  }

  lemma {:induction false} PokesFrame(mem: Memory, a: seq<nat>, d: seq<Byte>, x: nat)
    requires |a| == |d| && x !in a
    ensures Peek(Pokes(mem, a, d), x) == Peek(mem, x)
  {
    if a != [] {
      PokesFrame(mem, a[..|a| - 1], d[..|a| - 1], x);
      OtherByte(a[|a| - 1], x);
    }
  }

  lemma {:induction false} OtherByte(a: nat, x: nat)
    requires a != x
    ensures Floor(a) != Floor(x) || Offset(a) != Offset(x)
  {
  }

  lemma {:induction false} PokesRead(mem: Memory, a: seq<nat>, d: seq<Byte>, k: nat)
    requires |a| == |d| && k < |a| && (forall i, j :: 0 <= i < j < |a| ==> a[i] != a[j])
    ensures Peek(Pokes(mem, a, d), a[k]) == d[k]
  {
    var n := |a| - 1;
    if k < n {
      PokesRead(mem, a[..n], d[..n], k);
      OtherByte(a[n], a[k]);
    }
  }

  ghost predicate TableFrame(id: nat, owner: Owners, f: nat) {
    f in owner && owner[f].Node? && owner[f].id == id
  }

  lemma {:induction false} PokeKeepsTables(id: nat, owner: Owners, mem0: Memory, mem: Memory, a: nat, b: Byte)
    requires SameTables(id, Store(mem0, owner), Store(mem, owner)) && !TableFrame(id, owner, Floor(a))
    ensures SameTables(id, Store(mem0, owner), Store(Poke(mem, a, b), owner))
  {
    hide Floor, Offset;
  }

  lemma {:induction false} AddressSplit(f: nat, i: nat)
    requires i < PAGE_SIZE
    ensures Floor(f * PAGE_SIZE + i) == f && Offset(f * PAGE_SIZE + i) == i
  {
  }

  lemma {:induction false} PokesAppend(mem: Memory, a: seq<nat>, d: seq<Byte>, b: seq<nat>, e: seq<Byte>)
    requires |a| == |d| && |b| == |e|
    ensures Pokes(Pokes(mem, a, d), b, e) == Pokes(mem, a + b, d + e)
  {
    hide Poke;
    var n := |b|;
    if n == 0 {
      assert a + b == a && d + e == d;
    } else {
      PokesAppend(mem, a, d, b[..n - 1], e[..n - 1]);
      assert (a + b)[..|a + b| - 1] == a + b[..n - 1] && (d + e)[..|a + b| - 1] == d + e[..n - 1];
    }
  }

  // The inner loop: one run of volatile byte writes inside one frame.
  method WritePiece(m: Machine, s: Slice, data: seq<Byte>, ghost id: nat)
    requires s.lo <= s.hi <= PAGE_SIZE && |data| == s.hi - s.lo && !TableFrame(id, m.owner, s.frame)
    requires m.base <= s.frame && m.Valid()
    modifies m`mem
    ensures m.Valid() && m.mem == Pokes(old(m.mem), Span(s), data)
    ensures SameTables(id, old(m.S()), m.S())
  {
    hide Floor, Offset, SameTables, TableFrame, Machine.Valid;
    SameTablesReflexive(id, m.S());
    var i := s.lo;
    while i < s.hi
      invariant s.lo <= i <= s.hi && m.Valid()
      invariant m.mem == Pokes(old(m.mem), Span(s)[..i - s.lo], data[..i - s.lo])
      invariant SameTables(id, old(m.S()), m.S())
    {
      ghost var k := i - s.lo;
      AddressSplit(s.frame, i);
      PokeKeepsTables(id, m.owner, old(m.mem), m.mem, s.frame * PAGE_SIZE + i, data[k]);
      m.Put(s.frame, At(m.mem, s.frame)[i := data[i - s.lo]]);
      assert Span(s)[..k + 1][..k] == Span(s)[..k] && data[..k + 1][..k] == data[..k];
      i := i + 1;
    }
    assert Span(s)[..i - s.lo] == Span(s) && data[..i - s.lo] == data;
  }

  // No page of the range translates to a frame of this very tree.
  ghost predicate OffTables(id: nat, s: Store, t: Tables, lo: nat, hi: nat)
    requires Root in t
  {
    forall vpn :: lo <= vpn < hi && Walk(s.mem, t[Root], vpn).Some? ==>
      !TableFrame(id, s.owner, PpnOf(Walk(s.mem, t[Root], vpn).value))
  }

  // The kernel can store at address x of the space: it translates to a managed frame, which the kernel
  // maps writable.
  ghost predicate Storable(mem: Memory, root: nat, base: nat, x: nat) {
    var a := TranslateVa(mem, root, x);
    a.Some? && base <= Floor(a.value)
  }

  ghost predicate AllStorable(mem: Memory, root: nat, base: nat, lo: nat, hi: nat) {
    forall x :: lo <= x < hi ==> Storable(mem, root, base, x)
  }

  lemma {:induction false} PieceStorable(mem: Memory, root: nat, base: nat, ptr: nat, a: seq<nat>, s: Slice)
    requires AllStorable(mem, root, base, ptr, ptr + |a|) && Translates(mem, root, ptr, a + Span(s))
    requires s.lo <= s.hi <= PAGE_SIZE && base <= s.frame
    ensures AllStorable(mem, root, base, ptr, ptr + |a + Span(s)|)
  {
    hide Floor, Walk, TranslateVa;
    forall x | ptr <= x < ptr + |a + Span(s)| ensures Storable(mem, root, base, x) {
      if x >= ptr + |a| {
        var k := x - ptr - |a|;
        assert (a + Span(s))[x - ptr] == Span(s)[k] == s.frame * PAGE_SIZE + (s.lo + k);
        AddressSplit(s.frame, s.lo + k);
      }
    }
  }

  // translated_and_write_bytes.  The bytes land, one after the other, at the addresses that translate
  // ptr, ptr + 1, ..., up to the first the kernel cannot store at; a sum that wraps writes nothing.
  // OffTables holds in every live space (SpaceSteps.LiveOffTables).
  method TranslatedAndWriteBytes(m: Machine, token: nat, ptr: nat, data: seq<Byte>, ghost id: nat, ghost t: Tables)
      returns (o: Access, ghost a: seq<nat>)
    requires ptr < WORD && |data| < WORD && m.Valid()
    requires Tree(id, m.S(), t) && TokenRoot(token) == t[Root]
    requires OffTables(id, m.S(), t, Floor(ptr), Ceil(ptr + |data|))
    modifies m`mem
    ensures m.Valid() && SameTables(id, old(m.S()), m.S())
    ensures o.NoReturn? <==> RunsOn(ptr, (ptr + |data|) % WORD)
    ensures o.Untranslated? || o.Faults? <==>
      && ptr + |data| < WORD && !RunsOn(ptr, (ptr + |data|) % WORD)
      && !AllStorable(old(m.mem), TokenRoot(token), m.base, ptr, ptr + |data|)
    ensures |a| <= |data| && Translates(old(m.mem), TokenRoot(token), ptr, a)
    ensures m.mem == Pokes(old(m.mem), a, data[..|a|])
    ensures AllStorable(old(m.mem), TokenRoot(token), m.base, ptr, ptr + |a|)
    ensures o.Done? ==> |a| == if ptr + |data| < WORD then |data| else 0
    ensures o.Untranslated? ==> |a| < |data| && TranslateVa(old(m.mem), TokenRoot(token), ptr + |a|).None?
    ensures o.Faults? ==> |a| < |data| && TranslateVa(old(m.mem), TokenRoot(token), ptr + |a|).Some?
    ensures o.Faults? ==> !Storable(old(m.mem), TokenRoot(token), m.base, ptr + |a|)
  {
    hide Walk, PpnOf, Floor, Offset, VirtAddr, PieceEnd, Span, Translates, Tree, View, SameTables, Pokes, TableFrame,
         Ceil, TokenRoot, Machine.Valid, AllStorable, Storable;
    var root := TokenRoot(token);
    var start, end := ptr, (ptr + |data|) % WORD;
    var cnt := 0;
    a := [];
    SameTablesReflexive(id, m.S());
    NoPokes(m.mem);
    NoAddresses(m.mem, root, ptr);
    NoneStorable(m.mem, root, m.base, ptr);
    assert data[..cnt] == [];
    if RunsOn(ptr, end) { return NoReturn, a; }
    while start < end
      invariant ptr <= start && (ptr + |data| < WORD ==> start <= end) && (end < ptr ==> start == ptr)
      invariant cnt == start - ptr == |a| && m.Valid()
      invariant cnt <= |data| && Translates(old(m.mem), root, ptr, a) && m.mem == Pokes(old(m.mem), a, data[..cnt])
      invariant SameTables(id, old(m.S()), m.S()) && AllStorable(old(m.mem), root, m.base, ptr, start)
      decreases end - start
    {
      Small(start);
      var vpn := Floor(VirtAddr(start));
      TreeFrame(id, old(m.S()), t, m.S());
      var e := FindPte(m.mem, root, vpn);
      StorableHere(old(m.mem), root, m.base, start);
      if e.None? || PpnOf(e.value) < m.base {
        NotAllStorable(old(m.mem), root, m.base, ptr, ptr + |data|, start);
        o := if e.None? then Untranslated else Faults;
        return;
      }
      PieceAdvances(start, end);
      NextPiece(old(m.mem), root, ptr, a, start, end);
      PagesCoverBytes(ptr, end, start);
      var s := Piece(PpnOf(e.value), start, end);
      var n := s.hi - s.lo;
      ghost var s0 := m.S();
      WritePiece(m, s, data[cnt..cnt + n], id);
      SameTablesTransitive(id, old(m.S()), s0, m.S());
      PokesAppend(old(m.mem), a, data[..cnt], Span(s), data[cnt..cnt + n]);
      PieceStorable(old(m.mem), root, m.base, ptr, a, s);
      assert data[..cnt] + data[cnt..cnt + n] == data[..cnt + n];
      a := a + Span(s);
      cnt := cnt + n;
      start := PieceEnd(start, end);
    }
    return Done, a;
  }

  lemma {:induction false} NoneStorable(mem: Memory, root: nat, base: nat, ptr: nat)
    ensures AllStorable(mem, root, base, ptr, ptr)
  {
  }

  lemma {:induction false} NotAllStorable(mem: Memory, root: nat, base: nat, lo: nat, hi: nat, x: nat)
    requires lo <= x < hi && !Storable(mem, root, base, x)
    ensures !AllStorable(mem, root, base, lo, hi)
  {
  }

  lemma {:induction false} StorableHere(mem: Memory, root: nat, base: nat, x: nat)
    ensures var e := Walk(mem, root, Floor(x)); Storable(mem, root, base, x) <==> e.Some? && base <= PpnOf(e.value)
    ensures TranslateVa(mem, root, x).None? <==> Walk(mem, root, Floor(x)).None?
  {
    hide Walk, PpnOf;
  }

  lemma {:induction false} NoPokes(mem: Memory)
    ensures Pokes(mem, [], []) == mem
  {
  }

  lemma {:induction false} SameTablesTransitive(id: nat, s: Store, s1: Store, s2: Store)
    requires SameTables(id, s, s1) && SameTables(id, s1, s2)
    ensures SameTables(id, s, s2)
  {
  }

  lemma {:induction false} SameTablesReflexive(id: nat, s: Store)
    ensures SameTables(id, s, s)
  {
  }

  // Pages of the buffer that translate at all translate to different frames.
  ghost predicate DistinctFrames(mem: Memory, root: nat, lo: nat, hi: nat) {
    forall p, q :: lo <= p < q < hi && Walk(mem, root, p).Some? && Walk(mem, root, q).Some? ==>
      PpnOf(Walk(mem, root, p).value) != PpnOf(Walk(mem, root, q).value)
  }

  lemma {:induction false} DistinctAddresses(mem: Memory, root: nat, ptr: nat, a: seq<nat>, i: nat, j: nat)
    requires Translates(mem, root, ptr, a) && i < j < |a|
    requires DistinctFrames(mem, root, Floor(ptr), Ceil(ptr + |a|))
    ensures a[i] != a[j]
  {
    hide Walk;
    PagesCoverBytes(ptr, ptr + |a|, ptr + i);
    PagesCoverBytes(ptr, ptr + |a|, ptr + j);
    assert TranslateVa(mem, root, ptr + i) == Some(a[i]) && TranslateVa(mem, root, ptr + j) == Some(a[j]);
    var e, g := Walk(mem, root, Floor(ptr + i)).value, Walk(mem, root, Floor(ptr + j)).value;
    AddressSplit(PpnOf(e), Offset(ptr + i));
    AddressSplit(PpnOf(g), Offset(ptr + j));
    if Floor(ptr + i) == Floor(ptr + j) {
      OtherByte(ptr + i, ptr + j);
    }
  }

  // Cross-page write, then read: what translated_and_write_bytes stored is what the slices of a
  // later translated_byte_buffer show, and no other physical byte has changed.
  lemma {:induction false} WriteThenRead(id: nat, s: Store, t: Tables, ptr: nat, a: seq<nat>, data: seq<Byte>,
                                         v: seq<Slice>)
    requires Tree(id, s, t) && |a| == |data| && Translates(s.mem, t[Root], ptr, a)
    requires DistinctFrames(s.mem, t[Root], Floor(ptr), Ceil(ptr + |a|))
    requires SameTables(id, s, Store(Pokes(s.mem, a, data), s.owner))
    requires Translates(Pokes(s.mem, a, data), t[Root], ptr, Addresses(v)) && |Addresses(v)| == |data|
    ensures forall k :: 0 <= k < |data| ==> Peek(Pokes(s.mem, a, data), Addresses(v)[k]) == data[k]
    ensures forall x :: x !in Addresses(v) ==> Peek(Pokes(s.mem, a, data), x) == Peek(s.mem, x)
  {
    hide Walk, Tree, View, SameTables, Pokes, Peek, Floor, Ceil, DistinctFrames, Addresses, Translates;
    RootThere(id, s, t);
    TreeFrame(id, s, t, Store(Pokes(s.mem, a, data), s.owner));
    SameAddresses(s.mem, Pokes(s.mem, a, data), t[Root], ptr, a, Addresses(v));
    forall i, j | 0 <= i < j < |a| ensures a[i] != a[j] {
      DistinctAddresses(s.mem, t[Root], ptr, a, i, j);
    }
    forall k | 0 <= k < |a| ensures Peek(Pokes(s.mem, a, data), a[k]) == data[k] {
      PokesRead(s.mem, a, data, k);
    }
    forall x | x !in a ensures Peek(Pokes(s.mem, a, data), x) == Peek(s.mem, x) {
      PokesFrame(s.mem, a, data, x);
    }
  }

  lemma {:induction false} SameAddresses(mem: Memory, mem': Memory, root: nat, ptr: nat, a: seq<nat>, b: seq<nat>)
    requires forall vpn :: Walk(mem', root, vpn) == Walk(mem, root, vpn)
    requires Translates(mem, root, ptr, a) && Translates(mem', root, ptr, b) && |a| == |b|
    ensures a == b
  {
    hide Walk;
    forall k | 0 <= k < |a| ensures a[k] == b[k] {
      assert TranslateVa(mem, root, ptr + k) == Some(a[k]);
      assert TranslateVa(mem', root, ptr + k) == Some(b[k]);
    }
  }

  // ---- strings ----

  // The byte the kernel reads at a user address, or None where it panics: the page does not translate,
  // or it leads to frame 0, which no mapping of the kernel has.
  function CharAt(mem: Memory, root: nat, p: nat): Option<Byte> {
    var a := TranslateVa(mem, root, VirtAddr(p));
    if a.None? || Floor(a.value) == 0 then None else Some(Peek(mem, a.value))
  }

  // The bytes from ptr on are those of s, and none is NUL.
  ghost predicate Reads(mem: Memory, root: nat, ptr: nat, s: seq<Byte>) {
    forall k :: 0 <= k < |s| ==> CharAt(mem, root, ptr + k) == Some(s[k]) && s[k] != 0
  }

  // `s` is the NUL-terminated string at ptr.
  ghost predicate StringAt(mem: Memory, root: nat, ptr: nat, s: seq<Byte>) {
    Reads(mem, root, ptr, s) && CharAt(mem, root, ptr + |s|) == Some(0)
  }

  lemma {:induction false} PhysicalPage(ppn: nat, va: nat)
    ensures Floor(ppn * PAGE_SIZE + Offset(va)) == ppn
  {
  }

  lemma {:induction false} ReadsNext(mem: Memory, root: nat, ptr: nat, s: seq<Byte>, ch: Byte)
    requires Reads(mem, root, ptr, s) && CharAt(mem, root, ptr + |s|) == Some(ch) && ch != 0
    ensures Reads(mem, root, ptr, s + [ch])
  {
    hide CharAt;
  }

  // Addresses are cut to 39 bits, so memory repeats.
  lemma {:induction false} CharRepeats(mem: Memory, root: nat, ptr: nat, p: nat)
    requires ptr <= p
    ensures var q := ptr + (p - ptr) % VA_SPACE; q < ptr + VA_SPACE && CharAt(mem, root, q) == CharAt(mem, root, p)
  {
    hide CharAt;
    var k := (p - ptr) / VA_SPACE;
    var q := ptr + (p - ptr) % VA_SPACE;
    assert p == q + VA_SPACE * k;
    SameAddress(q, k);
    SameChar(mem, root, p, q);
  }

  lemma {:induction false} SameAddress(q: nat, k: nat)
    ensures VirtAddr(q + VA_SPACE * k) == VirtAddr(q)
  {
    var d, r := q / VA_SPACE, q % VA_SPACE;
    Remainder(q, d, r);
    Remainder(q + VA_SPACE * k, d + k, r);
  }

  lemma {:induction false} Remainder(v: nat, d: nat, r: nat)
    requires v == VA_SPACE * d + r && r < VA_SPACE
    ensures VirtAddr(v) == r
  {
  }

  lemma {:induction false} SameChar(mem: Memory, root: nat, p: nat, q: nat)
    requires VirtAddr(p) == VirtAddr(q)
    ensures CharAt(mem, root, p) == CharAt(mem, root, q)
  {
  }

  lemma {:induction false} ReadsNothing(mem: Memory, root: nat, ptr: nat)
    ensures Reads(mem, root, ptr, [])
  {
  }

  lemma {:induction false} ReadsAt(mem: Memory, root: nat, ptr: nat, s: seq<Byte>, p: nat)
    requires Reads(mem, root, ptr, s) && ptr <= p < ptr + |s|
    ensures CharAt(mem, root, p) !in {None, Some(0)}
  {
    hide CharAt;
    assert CharAt(mem, root, ptr + (p - ptr)) == Some(s[p - ptr]);
  }

  // A byte that cannot be read before any NUL: there is no string.
  lemma {:induction false} NoString(mem: Memory, root: nat, ptr: nat, s: seq<Byte>, t: seq<Byte>)
    requires Reads(mem, root, ptr, s) && CharAt(mem, root, ptr + |s|).None?
    ensures !StringAt(mem, root, ptr, t)
  {
    hide CharAt;
    if StringAt(mem, root, ptr, t) {
      if |t| < |s| { ReadsAt(mem, root, ptr, s, ptr + |t|); }
      if |s| < |t| { ReadsAt(mem, root, ptr, t, ptr + |s|); }
    }
  }

  // translated_str.  It returns exactly when there is a string, and never returns exactly when no byte
  // ahead is NUL or unreadable; else it panics at the first unreadable byte.
  method TranslatedStr(mem: Memory, token: nat, ptr: nat) returns (o: Access, s: seq<Byte>)
    ensures o.Done? ==> StringAt(mem, TokenRoot(token), ptr, s)
    ensures o.Done? <==> exists t :: StringAt(mem, TokenRoot(token), ptr, t)
    ensures o.Untranslated? || o.Faults? ==>
      Reads(mem, TokenRoot(token), ptr, s) && CharAt(mem, TokenRoot(token), ptr + |s|).None?
    ensures o.Untranslated? ==> TranslateVa(mem, TokenRoot(token), VirtAddr(ptr + |s|)).None?
    ensures o.Faults? ==> TranslateVa(mem, TokenRoot(token), VirtAddr(ptr + |s|)).Some?
    ensures o.NoReturn? <==> forall p :: ptr <= p ==> CharAt(mem, TokenRoot(token), p) !in {None, Some(0)}
  {
    hide Walk, PpnOf, VirtAddr, Peek, TokenRoot, Floor, Offset, Reads;
    var root := TokenRoot(token);
    s := [];
    var va := ptr;
    ReadsNothing(mem, root, ptr);
    while va < ptr + VA_SPACE
      invariant ptr <= va == ptr + |s| && va <= ptr + VA_SPACE && Reads(mem, root, ptr, s)
    {
      var e := FindPte(mem, root, Floor(VirtAddr(va)));
      if e.Some? { PhysicalPage(PpnOf(e.value), VirtAddr(va)); }
      if e.None? || PpnOf(e.value) == 0 {
        assert CharAt(mem, root, va).None?;
        forall t ensures !StringAt(mem, root, ptr, t) { NoString(mem, root, ptr, s, t); }
        o := if e.None? then Untranslated else Faults;
        return;
      }
      var ch := Peek(mem, PpnOf(e.value) * PAGE_SIZE + Offset(VirtAddr(va)));
      assert CharAt(mem, root, va) == Some(ch);
      if ch == 0 { return Done, s; }
      ReadsNext(mem, root, ptr, s, ch);
      s := s + [ch];
      va := va + 1;
    }
    // A whole address space without an end: it starts over.
    forall p | ptr <= p ensures CharAt(mem, root, p) !in {None, Some(0)} {
      CharRepeats(mem, root, ptr, p);
      ReadsAt(mem, root, ptr, s, ptr + (p - ptr) % VA_SPACE);
    }
    forall t ensures !StringAt(mem, root, ptr, t) { assert CharAt(mem, root, ptr + |t|) !in {None, Some(0)}; }
    return NoReturn, s;
  }

  // The string at a place is unique: over a buffer that shows `data`, it is data up to its first NUL.
  lemma {:induction false} StringIsPrefix(mem: Memory, root: nat, ptr: nat, data: seq<Byte>, z: nat, s: seq<Byte>)
    requires forall k :: 0 <= k < |data| ==> CharAt(mem, root, ptr + k) == Some(data[k])
    requires z < |data| && data[z] == 0 && (forall k :: 0 <= k < z ==> data[k] != 0)
    requires StringAt(mem, root, ptr, s)
    ensures s == data[..z]
  {
    hide CharAt;
    assert |s| < |data| ==> CharAt(mem, root, ptr + |s|) == Some(data[|s|]);
    assert CharAt(mem, root, ptr + z) == Some(data[z]);
    if z < |s| { ReadsAt(mem, root, ptr, s, ptr + z); }
    forall k | 0 <= k < |s| && k < z ensures s[k] == data[k] {
      assert CharAt(mem, root, ptr + k) == Some(data[k]) == Some(s[k]);
    }
  }
}
