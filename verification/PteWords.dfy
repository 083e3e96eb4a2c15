/** Page-table entries: the bit operations of vm.c on 32-bit words mean the
    record operations of Paging. */
module PteWords {
  import opened Paging

  const PTE_P: bv32 := 0x001
  const PTE_W: bv32 := 0x002
  const PTE_U: bv32 := 0x004
  const PTE_A: bv32 := 0x020
  const PTE_PG: bv32 := 0x200
  const FLAGS: bv32 := 0xFFF

  /** PTE_ADDR as a number. */
  function Frame(w: bv32): (f: int) {
    (w & !FLAGS) as int
  }

  function Decode(w: bv32): (p: Pte) {
    Pte(w & PTE_P != 0, w & PTE_PG != 0, w & PTE_A != 0, Frame(w))
  }

  // The words vm.c stores.

  function MappedWord(pa: bv32): (w: bv32) {
    pa | PTE_W | PTE_U | PTE_P
  }

  function PagedInWord(w: bv32, pa: bv32): (r: bv32) {
    ((w | PTE_P | PTE_W | PTE_U) & !PTE_PG) | pa
  }

  function PagedOutWord(w: bv32): (r: bv32) {
    var x := (w | PTE_PG) & !PTE_P;
    x & (x & FLAGS)
  }

  function EvictedWord(): (r: bv32) {
    PTE_W | PTE_U | PTE_PG
  }

  function UnaccessedWord(w: bv32): (r: bv32) {
    w & !PTE_A
  }

  /** Two words with these four parts equal decode alike. */
  lemma DecodeByBits(x: bv32, present: bool, paged: bool, accessed: bool, pa: bv32)
    requires (x & PTE_P != 0) == present && (x & PTE_PG != 0) == paged && (x & PTE_A != 0) == accessed
    requires x & !FLAGS == pa
    ensures Decode(x) == Pte(present, paged, accessed, pa as int)
  {
  }

  lemma MappedBits(pa: bv32)
    requires pa & FLAGS == 0
    ensures MappedWord(pa) & PTE_P != 0 && MappedWord(pa) & PTE_PG == 0 && MappedWord(pa) & PTE_A == 0
    ensures MappedWord(pa) & !FLAGS == pa
  {
  }

  lemma PagedInBits(w: bv32, pa: bv32)
    requires pa & FLAGS == 0 && w & !FLAGS == 0
    ensures PagedInWord(w, pa) & PTE_P != 0 && PagedInWord(w, pa) & PTE_PG == 0
    ensures PagedInWord(w, pa) & PTE_A == w & PTE_A
    ensures PagedInWord(w, pa) & !FLAGS == pa
  {
  }

  // Every word written means what its record function says.

  lemma MappedDecodes(pa: bv32)
    requires pa & FLAGS == 0
    ensures Decode(MappedWord(pa)) == Mapped(pa as int)
  {
    MappedBits(pa);
    DecodeByBits(MappedWord(pa), true, false, false, pa);
  }

  /** fixPagedInPTE ORs the new address in: right when the old one is clear. */
  lemma PagedInDecodes(w: bv32, pa: bv32)
    requires pa & FLAGS == 0 && w & !FLAGS == 0
    ensures Decode(PagedInWord(w, pa)) == PagedIn(Decode(w), pa as int)
  {
    PagedInBits(w, pa);
    DecodeByBits(PagedInWord(w, pa), true, false, w & PTE_A != 0, pa);
  }

  /** fixPagedOutPTE leaves such an entry: address clear, access bit kept. */
  lemma PagedOutDecodes(w: bv32)
    ensures Decode(PagedOutWord(w)) == PagedOut(Decode(w))
  {
  }

  lemma EvictedDecodes()
    ensures Decode(EvictedWord()) == Evicted()
  {
  }

  lemma UnaccessedDecodes(w: bv32)
    ensures Decode(UnaccessedWord(w)) == Unaccessed(Decode(w))
  {
  }
}
