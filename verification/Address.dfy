/** Addresses, page numbers and page ranges (src/mm/address.rs, src/config.rs).

    Machine words are 64 bits wide and the kernel is built in release mode, so
    `usize` arithmetic wraps; every wrap that can matter is written out. */
module Address {

  const PAGE_SIZE := 4096
  const WORD := 0x1_0000_0000_0000_0000   // 2^64
  const VA_SPACE := 0x80_0000_0000        // 2^39, one Sv39 address space
  const VPNS := 0x800_0000                // 2^27, its pages
  const PPNS := 0x1000_0000_0000          // 2^44, physical page numbers

  // `TRAMPOLINE` is usize::MAX - PAGE_SIZE + 1; the trap context lies one page below it.
  const TRAMPOLINE := WORD - PAGE_SIZE
  const TRAP_CONTEXT_BASE := TRAMPOLINE - PAGE_SIZE
  const TRAMPOLINE_VPN := VPNS - 1
  const USER_STACK_SIZE := 8192
  const KERNEL_STACK_SIZE := 8192

  // VirtAddr::from(usize): keeps the low 39 bits.
  function VirtAddr(v: nat): (va: nat)
    ensures va < VA_SPACE
  {
    v % VA_SPACE
  }

  // PhysPageNum::from(usize): keeps the low 44 bits.
  function PhysPageNum(v: nat): (f: nat)
    ensures f < PPNS
    ensures v < PPNS ==> f == v
  {
    v % PPNS
  }

  function Floor(va: nat): nat { va / PAGE_SIZE }

  function Ceil(va: nat): nat { (va + PAGE_SIZE - 1) / PAGE_SIZE }

  function Offset(va: nat): (r: nat)
    ensures r < PAGE_SIZE
  {
    va % PAGE_SIZE
  }

  // [Floor(a), Ceil(b)) is the least page range that covers the bytes [a, b).
  lemma {:induction false} PagesCoverBytes(a: nat, b: nat, x: nat)
    requires a <= x < b
    ensures Floor(a) <= Floor(x) < Ceil(b)
    ensures Floor(a) * PAGE_SIZE <= a < (Floor(a) + 1) * PAGE_SIZE && b <= Ceil(b) * PAGE_SIZE < b + PAGE_SIZE
  {
  }

  // ---- the three nine-bit indices of a page number ----

  function Top(vpn: nat): (i: nat) ensures i < 512 { vpn / 0x40000 % 512 }

  function Second(vpn: nat): (i: nat) ensures i < 512 { vpn / 512 % 512 }

  function Low(vpn: nat): (i: nat) ensures i < 512 { vpn % 512 }

  // VirtPageNum::indexes: peels nine bits at a time, last level first.
  method Indexes(vpn: nat) returns (idx: seq<nat>)
    ensures idx == [Top(vpn), Second(vpn), Low(vpn)]
  {
    var v := vpn;
    idx := [0, 0, 0];
    var i := 3;
    while i > 0
      invariant 0 <= i <= 3 && |idx| == 3
      invariant i == 3 ==> v == vpn
      invariant i == 2 ==> v == vpn / 512
      invariant i == 1 ==> v == vpn / 0x40000
      invariant i <= 2 ==> idx[2] == Low(vpn)
      invariant i <= 1 ==> idx[1] == Second(vpn)
      invariant i == 0 ==> idx[0] == Top(vpn)
    {
      i := i - 1;
      idx := idx[i := v % 512];
      v := v / 512;
    }
  }

  // Two page numbers take the same walk exactly when they agree modulo 2^27:
  // `indexes` is injective on one address space and aliases beyond it.
  lemma {:induction false} SameWalk(a: nat, b: nat)
    ensures (Top(a) == Top(b) && Second(a) == Second(b) && Low(a) == Low(b)) <==> a % VPNS == b % VPNS
  {
    hide Top, Second, Low;
    Recompose(a);
    Recompose(b);
  }

  lemma {:induction false} Recompose(v: nat)
    ensures v % VPNS == Top(v) * 0x40000 + Second(v) * 512 + Low(v)
    ensures Top(v % VPNS) == Top(v) && Second(v % VPNS) == Second(v) && Low(v % VPNS) == Low(v)
  {
    Digits(v);
    Compose(v / 512 / 512 / 512, Top(v), Second(v), Low(v));
  }

  lemma {:induction false} Compose(k: nat, t: nat, s: nat, l: nat)
    requires t < 512 && s < 512 && l < 512
    ensures var v := k * VPNS + t * 0x40000 + s * 512 + l;
            var r := t * 0x40000 + s * 512 + l;
            v % VPNS == r && Top(r) == t && Second(r) == s && Low(r) == l
  {
    var r := t * 0x40000 + s * 512 + l;
    assert r / 512 == t * 512 + s;
    assert r / 0x40000 == t;
  }

  lemma {:induction false} Digits(v: nat)
    ensures v / 0x40000 == v / 512 / 512
    ensures v == v / 512 * 512 + Low(v)
    ensures v / 512 == v / 512 / 512 * 512 + Second(v)
    ensures v / 512 / 512 == v / 512 / 512 / 512 * 512 + Top(v)
  {
  }

  // ---- positions in the tree ----

  // A table of the tree, named by the indices that lead to it.
  datatype Path = Root | Mid(i: nat) | Leaf(i: nat, j: nat)

  function Child(p: Path, i: nat): Path
    requires !p.Leaf?
  {
    match p
    case Root => Mid(i)
    case Mid(k) => Leaf(k, i)
  }

  // The table that a walk for `vpn` reads at level n (0, 1 or 2).
  function WalkPath(vpn: nat, n: nat): Path
    requires n < 3
  {
    if n == 0 then Root else if n == 1 then Mid(Top(vpn)) else Leaf(Top(vpn), Second(vpn))
  }

  function LeafPath(vpn: nat): Path { Leaf(Top(vpn), Second(vpn)) }

  lemma {:induction false} SameLeafSlot(a: nat, b: nat)
    requires a < VPNS && b < VPNS && LeafPath(a) == LeafPath(b) && Low(a) == Low(b)
    ensures a == b
  {
    hide Top, Second, Low;
    Recompose(a);
    Recompose(b);
  }
}
