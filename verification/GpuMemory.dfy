/** Host memory behind the 2D engines: the LCDC buffer followed by blank memory, and the
    page table that places 16 KB LCDC pages in the ARM9 video address space. */
module GpuMemory {
  import opened Types
  import VramSpec

  const PAGE_SIZE := 0x4000
  const LCD_SIZE := 0xA4000
  const BLANK_SIZE := 0x20000

  /** `host` is ARM9_LCD with blank_memory right behind it; `pages` is vram_arm9_map. */
  datatype Memory = Memory(host: seq<u8>, pages: seq<u8>) {
    predicate Valid() {
      && |host| == LCD_SIZE + BLANK_SIZE
      && |pages| == VramSpec.ARM9_PAGES
      && forall p :: 0 <= p < VramSpec.ARM9_PAGES ==> pages[p] <= VramSpec.UNMAPPED
    }

    /** MMU_gpu_map: the host position of one video address. */
    function GpuMap(addr: nat): (r: nat)
      requires Valid()
      ensures r < LCD_SIZE + PAGE_SIZE
    {
      pages[addr / PAGE_SIZE % VramSpec.ARM9_PAGES] * PAGE_SIZE + addr % PAGE_SIZE
    }

    function Byte(addr: nat): u8
      requires Valid()
    {
      host[GpuMap(addr)]
    }

    /** A little-endian halfword fetched through a pointer to its first byte. */
    function Half(addr: nat): u16
      requires Valid()
    {
      var p := GpuMap(addr);
      host[p] as int + 0x100 * (host[p + 1] as int)
    }

    /** A halfword is little-endian. */
    lemma HalfIsTwoBytes(addr: nat)
      requires Valid() && addr % 2 == 0
      ensures Half(addr) == Byte(addr) as int + 256 * (Byte(addr + 1) as int)
    {
      assert (addr + 1) / PAGE_SIZE == addr / PAGE_SIZE;
    }

    /** A pointer obtained for an aligned run may be advanced inside that run: the run
        does not leave its page. */
    lemma PointerWalk(base: nat, size: nat, d: nat)
      requires Valid()
      requires size == 4 || size == 8
      requires base % size == 0 && d < size
      ensures GpuMap(base + d) == GpuMap(base) + d
    {
      assert (base + d) / PAGE_SIZE == base / PAGE_SIZE;
    }

    /** Any other advance by d stays on the video memory it names iff the page reached is as many
        LCDC pages on as it is video pages on. */
    lemma PointerReachIff(base: nat, d: nat)
      requires Valid()
      ensures GpuMap(base) + d == GpuMap(base + d) <==>
              pages[(base + d) / PAGE_SIZE % VramSpec.ARM9_PAGES]
                == pages[base / PAGE_SIZE % VramSpec.ARM9_PAGES] + (base % PAGE_SIZE + d) / PAGE_SIZE
    {
      PageSplit(base, d);
    }
  }

  lemma PageSplit(base: nat, d: nat)
    ensures (base + d) % PAGE_SIZE == base % PAGE_SIZE + d - (base % PAGE_SIZE + d) / PAGE_SIZE * PAGE_SIZE
  {
    var q := base / PAGE_SIZE;
    assert base + d == q * PAGE_SIZE + (base % PAGE_SIZE + d);
  }
}
