/** Physical frames: their bytes, the 64-bit words a page table reads from them, and
    the encoding of page-table entries (src/mm/address.rs, src/mm/page_table.rs). */
module Frames {
  import opened Address

  type Byte = b: int | 0 <= b < 256
  type Page = s: seq<Byte> | |s| == PAGE_SIZE witness seq(PAGE_SIZE, _ => 0)

  function ZeroPage(): Page { seq(PAGE_SIZE, _ => 0) }

  // Physical memory, frame number to bytes; a frame never written reads as zeros.
  type Memory = map<nat, Page>

  function At(mem: Memory, f: nat): Page { if f in mem then mem[f] else ZeroPage() }

  // ---- little-endian words ----

  function ToLittle(w: nat, n: nat): (s: seq<Byte>)
    ensures |s| == n
  {
    if n == 0 then [] else [w % 256] + ToLittle(w / 256, n - 1)
  }

  function FromLittle(s: seq<Byte>): nat {
    if s == [] then 0 else s[0] + 256 * FromLittle(s[1..])
  }

  function Pow256(n: nat): nat { if n == 0 then 1 else 256 * Pow256(n - 1) }

  lemma {:induction false} LittleRoundTrip(w: nat, n: nat)
    requires w < Pow256(n)
    ensures FromLittle(ToLittle(w, n)) == w
  {
    if n > 0 {
      LittleRoundTrip(w / 256, n - 1);
      assert ToLittle(w, n)[1..] == ToLittle(w / 256, n - 1);
    }
  }

  lemma {:induction false} LittleZeros(n: nat)
    ensures FromLittle(seq(n, _ => 0)) == 0
  {
    if n > 0 {
      LittleZeros(n - 1);
      assert seq(n, _ => 0 as Byte)[1..] == seq(n - 1, _ => 0 as Byte);
    }
  }

  // PhysPageNum::get_pte_array: the i-th of the 512 words of a frame.
  function Word(p: Page, i: nat): nat
    requires i < 512
  {
    FromLittle(p[8 * i .. 8 * i + 8])
  }

  function SetWord(p: Page, i: nat, w: nat): (q: Page)
    requires i < 512
  {
    p[..8 * i] + ToLittle(w, 8) + p[8 * i + 8..]
  }

  lemma {:induction false} WordAfterSet(p: Page, i: nat, w: nat, k: nat)
    requires i < 512 && k < 512 && w < WORD
    ensures Word(SetWord(p, i, w), k) == if k == i then w else Word(p, k)
  {
    var q := SetWord(p, i, w);
    if k == i {
      assert q[8 * i .. 8 * i + 8] == ToLittle(w, 8);
      assert Pow256(8) == WORD by {
        assert Pow256(2) == 65536;
        assert Pow256(4) == 65536 * 65536;
        assert Pow256(6) == 65536 * 65536 * 65536;
      }
      LittleRoundTrip(w, 8);
    } else {
      assert q[8 * k .. 8 * k + 8] == p[8 * k .. 8 * k + 8];
    }
  }

  lemma {:induction false} WordOfZeroPage(i: nat)
    requires i < 512
    ensures Word(ZeroPage(), i) == 0
  {
    LittleZeros(8);
    assert ZeroPage()[8 * i .. 8 * i + 8] == seq(8, _ => 0 as Byte);
  }

  // ---- page-table entries: frame number in bits 10..53, flags in bits 0..7 ----

  const V := 1
  const R := 2
  const W := 4
  const X := 8
  const U := 16

  // PageTableEntry::new: `ppn << 10 | flags`; the shift drops what leaves the word.
  function Pte(ppn: nat, flags: nat): (e: nat)
    requires flags < 256
    ensures e < WORD
  {
    ppn * 1024 % WORD + flags
  }

  function PpnOf(e: nat): (f: nat)
    ensures f < PPNS
  {
    e / 1024 % PPNS
  }

  function FlagsOf(e: nat): (f: nat)
    ensures f < 256
  {
    e % 256
  }

  predicate Has(flags: nat, bit: nat)
    requires bit > 0
  {
    flags / bit % 2 == 1
  }

  // The flags of a valid leaf that may be read, written, executed and used by the user as said, and no others.
  predicate Rights(flags: nat, r: bool, w: bool, x: bool, u: bool) {
    && flags < 32 && Has(flags, V)
    && (Has(flags, R) <==> r) && (Has(flags, W) <==> w) && (Has(flags, X) <==> x) && (Has(flags, U) <==> u)
  }

  predicate IsValid(e: nat) { Has(FlagsOf(e), V) }

  // flags | PTEFlags::V
  function WithV(flags: nat): (r: nat)
    requires flags < 256
    ensures r < 256 && Has(r, V) && r / 2 == flags / 2
  {
    if Has(flags, V) then flags else flags + 1
  }

  lemma {:induction false} PteRoundTrip(ppn: nat, flags: nat)
    requires ppn < PPNS && flags < 256
    ensures PpnOf(Pte(ppn, flags)) == ppn && FlagsOf(Pte(ppn, flags)) == flags
    ensures IsValid(Pte(ppn, flags)) <==> Has(flags, V)
  {
    var x := ppn * 1024;
    assert x % WORD == x;
    assert Pte(ppn, flags) == ppn * 1024 + flags;
    LowBits(ppn * 4, flags);
  }

  // The flags survive any frame number, also one too wide for the entry.
  lemma {:induction false} PteFlags(ppn: nat, flags: nat)
    requires flags < 256
    ensures FlagsOf(Pte(ppn, flags)) == flags
  {
    var x := ppn * 1024;
    var q := x / WORD;
    var k := ppn - q * 0x40_0000_0000_0000;
    assert x % WORD == k * 1024;
    assert 0 <= k;
    LowBits(k * 4, flags);
  }

  lemma {:induction false} LowBits(q: nat, r: nat)
    requires r < 256
    ensures (q * 256 + r) % 256 == r
  {
  }
}
