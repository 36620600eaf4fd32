/**
 The address arithmetic of kernel/riscv.h (Sv39, cut to 38 bits by MAXVA).  Shifts and masks by
 constants are written as division and remainder.
 */
module RiscV {

  const PGSIZE: nat := 4096
  const MAXVA: nat := 0x40_0000_0000   // 38 bits
  const NVPAGE: nat := 0x400_0000      // MAXVA / PGSIZE

  function PGROUNDUP(sz: nat): (r: nat)
    ensures r % PGSIZE == 0 && sz <= r < sz + PGSIZE
  {
    (sz + PGSIZE - 1) / PGSIZE * PGSIZE
  }

  function PGROUNDDOWN(a: nat): (r: nat)
    ensures r % PGSIZE == 0 && r <= a < r + PGSIZE
  {
    a / PGSIZE * PGSIZE
  }

  function PA2PTE(pa: nat): nat {
    pa / 4096 * 1024
  }

  function PTE2PA(pte: nat): nat {
    pte / 1024 * 4096
  }

  function PTE_FLAGS(pte: nat): nat {
    pte % 1024
  }

  const PTE_V: nat := 1
  const PTE_R: nat := 2
  const PTE_W: nat := 4
  const PTE_X: nat := 8
  const PTE_U: nat := 16

  predicate IsV(pte: nat) { PTE_FLAGS(pte) % 2 == 1 }
  predicate IsR(pte: nat) { PTE_FLAGS(pte) / 2 % 2 == 1 }
  predicate IsW(pte: nat) { PTE_FLAGS(pte) / 4 % 2 == 1 }
  predicate IsX(pte: nat) { PTE_FLAGS(pte) / 8 % 2 == 1 }
  predicate IsU(pte: nat) { PTE_FLAGS(pte) / 16 % 2 == 1 }

  /** The PTE of a page with its flags and the valid bit. */
  function MakePte(pa: nat, perm: nat): (pte: nat)
    requires pa % PGSIZE == 0 && perm < 1024
    ensures PTE2PA(pte) == pa && PTE_FLAGS(pte) == perm / 2 * 2 + 1 && IsV(pte)
    ensures IsR(pte) == IsR(perm) && IsW(pte) == IsW(perm) && IsX(pte) == IsX(perm) && IsU(pte) == IsU(perm)
  {
    PA2PTE(pa) + perm / 2 * 2 + 1
  }

  function PX(level: nat, va: nat): (i: nat)
    requires level < 3
    ensures i < 512
  {
    if level == 2 then va / 0x4000_0000 % 512
    else if level == 1 then va / 0x20_0000 % 512
    else va / 0x1000 % 512
  }

  /** The three indices name one page of the address space each, and below MAXVA the top one is short. */
  lemma IndicesDetermine(va: nat, vb: nat)
    requires va < MAXVA && vb < MAXVA
    ensures PX(2, va) < 256
    ensures PX(2, va) == PX(2, vb) && PX(1, va) == PX(1, vb) && PX(0, va) == PX(0, vb) ==> va / PGSIZE == vb / PGSIZE
  {
    Split(va);
    Split(vb);
  }

  lemma Split(va: nat)
    requires va < MAXVA
    ensures va / PGSIZE == (PX(2, va) * 512 + PX(1, va)) * 512 + PX(0, va)
    ensures va / PGSIZE / 512 == PX(2, va) * 512 + PX(1, va)
    ensures va / PGSIZE / 0x4_0000 == PX(2, va)
    ensures va / PGSIZE % 512 == PX(0, va)
    ensures va / PGSIZE / 512 % 512 == PX(1, va)
  {
  }

  /** An aligned address lies below n exactly if its page is one of the pages that n rounds up to. */
  lemma BelowRoundUp(a: nat, n: nat)
    requires a % PGSIZE == 0
    ensures a < n <==> a / PGSIZE < PGROUNDUP(n) / PGSIZE
    ensures PGROUNDUP(a) == a
  {
  }

  lemma RoundUpMonotone(a: nat, b: nat)
    requires a <= b
    ensures PGROUNDUP(a) / PGSIZE <= PGROUNDUP(b) / PGSIZE
  {
  }
}
