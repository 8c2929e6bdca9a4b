/** Translation of CPU addresses to the video and shared work memory behind them. */
module LcdMap {
  import opened Types
  import opened Arith
  import opened VramSpec
  import GpuMemory

  const LCDC_LOCATION := 0x0600_0000
  const IWRAM_LOCATION := 0x0380_0000
  const SIWRAM_LOCATION := 0x0300_0000
  const BLOCK_16K := 0x4000

  /** The page maps and WRAMCNT in force. */
  datatype Maps = Maps(arm9: seq<u8>, lcdc: seq<u8>, arm7: seq<u8>, wramCnt: int) {
    predicate Shaped() {
      |arm9| == ARM9_PAGES && |lcdc| == LCDC_PAGES && |arm7| == 2 && 0 <= wramCnt < 4
    }
  }

  /** The maps a mapper holds after any run of control writes. */
  ghost predicate Reachable(s: Maps) {
    exists r: Control :: MapsOf(s, r)
  }

  ghost predicate MapsOf(s: Maps, r: Control) {
    && s.Shaped()
    && (forall p :: 0 <= p < ARM9_PAGES ==> s.arm9[p] == Arm9Page(r, p))
    && (forall p :: 0 <= p < LCDC_PAGES ==> s.lcdc[p] == LcdcPage(r, p))
    && (forall k :: 0 <= k < 2 ==> s.arm7[k] == Arm7Upto(r, k, 0))
  }

  datatype Translation = Translation(addr: u32, unmapped: bool, restricted: bool)

  /** 0..3 ARM7 work memory, 4..5 shared work memory, 8 nothing. */
  function Arm7Block(wramCnt: int, addr: u32): nat
    requires 0 <= wramCnt < 4
  {
    var block := addr / BLOCK_16K % 4;
    if addr / 0x80_0000 % 2 == 1 || wramCnt == 0 then block
    else if wramCnt == 1 then 4
    else if wramCnt == 2 then 5
    else 4 + block % 2
  }

  function Arm9Block(wramCnt: int, addr: u32): nat
    requires 0 <= wramCnt < 4
  {
    if wramCnt == 0 then 4 + addr / BLOCK_16K % 2
    else if wramCnt == 1 then 5
    else if wramCnt == 2 then 4
    else 8
  }

  /** Addresses past the LCDC buffer fall back to one of two fixed ones. */
  function Collapsed(addr: u32): (a: u32)
    requires 0x0600_0000 <= addr < 0x0700_0000
    ensures 0x0600_0000 <= a < 0x068A_4000
  {
    if addr >= 0x068A_4000 then 0x0680_0000 + (if addr / 0x8_0000 % 2 == 1 then 0x8_0000 else 0) else addr
  }

  /** The LCDC page behind a folded ARM9 video address. */
  function Arm9PageAt(s: Maps, a: u32): u8
    requires s.Shaped() && 0x0600_0000 <= a < 0x068A_4000
  {
    if a >= 0x0680_0000 then s.lcdc[a / BLOCK_16K % 64] else s.arm9[a / BLOCK_16K % ARM9_PAGES]
  }

  /** MMU_LCDmap */
  function Translate(proc: int, s: Maps, addr: u32): Translation
    requires s.Shaped() && (proc == ARM9 || proc == ARM7)
    requires forall k :: 0 <= k < |s.arm7| ==> s.arm7[k] <= UNMAPPED
    requires forall p :: 0 <= p < |s.arm9| ==> s.arm9[p] <= UNMAPPED
    requires forall p :: 0 <= p < |s.lcdc| ==> s.lcdc[p] <= UNMAPPED
  {
    if 0x0300_0000 <= addr < 0x0400_0000 then
      var block := if proc == ARM7 then Arm7Block(s.wramCnt, addr) else Arm9Block(s.wramCnt, addr);
      if block < 4 then Translation(IWRAM_LOCATION + block * BLOCK_16K + addr % BLOCK_16K, false, false)
      else if block < 8 then Translation(SIWRAM_LOCATION + block % 4 * BLOCK_16K + addr % BLOCK_16K, false, false)
      else Translation(0, true, false)
    else if addr < 0x0600_0000 || addr >= 0x0700_0000 then Translation(addr, false, false)
    else if proc == ARM7 then
      var page := s.arm7[addr / 0x2_0000 % 2];
      if page == UNMAPPED then Translation(0, true, false)
      else Translation(LCDC_LOCATION + page * BLOCK_16K + addr % 0x2_0000, false, false)
    else
      var a := Collapsed(addr);
      var page := Arm9PageAt(s, a);
      if page == UNMAPPED then Translation(0, true, true)
      else Translation(LCDC_LOCATION + page * BLOCK_16K + a % BLOCK_16K, false, true)
  }

  lemma ReachableBounds(s: Maps)
    requires Reachable(s)
    ensures s.Shaped()
    ensures forall p :: 0 <= p < ARM9_PAGES ==> s.arm9[p] <= UNMAPPED
    ensures forall p :: 0 <= p < LCDC_PAGES ==> s.lcdc[p] == p || s.lcdc[p] == UNMAPPED
    ensures forall k :: 0 <= k < 2 ==> s.arm7[k] == 16 || s.arm7[k] == 24 || s.arm7[k] == UNMAPPED
  {
  }

  /** What an in-bounds answer is for each address range. */
  predicate InBounds(proc: int, addr: u32, t: Translation) {
    t.unmapped ||
    if addr < 0x0400_0000 then
      SIWRAM_LOCATION <= t.addr < SIWRAM_LOCATION + 0x8000
      || (proc == ARM7 && IWRAM_LOCATION <= t.addr < IWRAM_LOCATION + 0x1_0000)
    else if addr < 0x0600_0000 then t.addr == addr
    else LCDC_LOCATION <= t.addr < LCDC_LOCATION + GpuMemory.LCD_SIZE
  }

  lemma WorkRamInBounds(proc: int, s: Maps, addr: u32)
    requires Reachable(s) && (proc == ARM9 || proc == ARM7)
    requires 0x0300_0000 <= addr < 0x0400_0000
    ensures (ReachableBounds(s); InBounds(proc, addr, Translate(proc, s, addr)))
  {
    ReachableBounds(s);
  }

  /** A mapped page plus the offset inside it ends before the LCDC buffer does. */
  lemma PageInBounds(page: nat, pages: nat, offset: nat)
    requires page + pages <= LCDC_PAGES && offset < pages * BLOCK_16K
    ensures page * BLOCK_16K + offset < GpuMemory.LCD_SIZE
  {
  }

  lemma Arm7VideoInBounds(s: Maps, addr: u32)
    requires Reachable(s) && 0x0600_0000 <= addr < 0x0700_0000
    ensures (ReachableBounds(s); InBounds(ARM7, addr, Translate(ARM7, s, addr)))
  {
    ReachableBounds(s);
    var page := s.arm7[addr / 0x2_0000 % 2];
    if page != UNMAPPED {
      PageInBounds(page, 8, addr % 0x2_0000);
    }
  }

  lemma PageBound(s: Maps, a: u32)
    requires s.Shaped() && 0x0600_0000 <= a < 0x068A_4000
    requires forall p :: 0 <= p < ARM9_PAGES ==> s.arm9[p] <= UNMAPPED
    requires forall p :: 0 <= p < LCDC_PAGES ==> s.lcdc[p] <= UNMAPPED
    ensures Arm9PageAt(s, a) <= UNMAPPED
  {
  }

  lemma Arm9VideoInBounds(s: Maps, addr: u32)
    requires Reachable(s) && 0x0600_0000 <= addr < 0x0700_0000
    ensures (ReachableBounds(s); InBounds(ARM9, addr, Translate(ARM9, s, addr)))
  {
    ReachableBounds(s);
    hide Collapsed, Arm9PageAt;
    var a := Collapsed(addr);
    var page := Arm9PageAt(s, a);
    PageBound(s, a);
    if page != UNMAPPED {
      PageInBounds(page, 1, a % BLOCK_16K);
    }
  }

  /** Every access to 0x03000000-0x06FFFFFF is unmapped or stays inside the memory it names:
      shared or ARM7 work memory, the LCDC buffer, or the plain address itself. */
  lemma TranslationInBounds(proc: int, s: Maps, addr: u32)
    requires Reachable(s) && (proc == ARM9 || proc == ARM7)
    requires 0x0300_0000 <= addr < 0x0700_0000
    ensures (ReachableBounds(s); InBounds(proc, addr, Translate(proc, s, addr)))
  {
    if addr < 0x0400_0000 {
      WorkRamInBounds(proc, s, addr);
    } else if addr >= 0x0600_0000 {
      if proc == ARM7 { Arm7VideoInBounds(s, addr); } else { Arm9VideoInBounds(s, addr); }
    } else {
      ReachableBounds(s);
    }
  }

  /** In the BG/OBJ range the CPU and the 2D engines see the same byte; what is unmapped for
      the CPU is blank memory for the engines. */
  lemma CpuAndGpuAgree(s: Maps, m: GpuMemory.Memory, addr: u32)
    requires Reachable(s) && m.Valid() && m.pages == s.arm9
    requires 0x0600_0000 <= addr < 0x0680_0000
    ensures (ReachableBounds(s); var t := Translate(ARM9, s, addr);
      if t.unmapped then GpuMemory.LCD_SIZE <= m.GpuMap(addr) < GpuMemory.LCD_SIZE + BLOCK_16K
      else m.GpuMap(addr) == t.addr - LCDC_LOCATION && m.GpuMap(addr) < GpuMemory.LCD_SIZE)
  {
    ReachableBounds(s);
  }

  /** The LCDC window names the LCDC buffer byte for byte wherever a bank is left to it. */
  lemma LcdcWindow(s: Maps, o: nat)
    requires Reachable(s) && o < GpuMemory.LCD_SIZE
    ensures (ReachableBounds(s);
      var t := Translate(ARM9, s, 0x0680_0000 + o);
      && t.unmapped == (s.lcdc[o / BLOCK_16K] == UNMAPPED)
      && (!t.unmapped ==> t.addr == LCDC_LOCATION + o))
  {
    ReachableBounds(s);
    WindowPage(o);
    assert Arm9PageAt(s, 0x0680_0000 + o) == s.lcdc[o / BLOCK_16K];
  }

  lemma WindowPage(o: nat)
    requires o < GpuMemory.LCD_SIZE
    ensures (0x0680_0000 + o) / BLOCK_16K % 64 == o / BLOCK_16K < LCDC_PAGES
    ensures (0x0680_0000 + o) % BLOCK_16K == o % BLOCK_16K
  {
    assert 0x0680_0000 + o == BLOCK_16K * (0x1A00 + o / BLOCK_16K) + o % BLOCK_16K;
  }

  /** Past the buffer every address collapses to the first byte of one of its 512 KB halves. */
  lemma PastTheBuffer(s: Maps, addr: u32)
    requires Reachable(s) && 0x068A_4000 <= addr < 0x0700_0000
    ensures (ReachableBounds(s); Translate(ARM9, s, addr) == Translate(ARM9, s, 0x0680_0000))
         || (ReachableBounds(s); Translate(ARM9, s, addr) == Translate(ARM9, s, 0x0688_0000))
  {
    ReachableBounds(s);
    hide Arm9PageAt;
  }

  // ----- Addresses in numbers -----

  /** Byte o of the ARM9's video page p is byte o of the LCDC page mapped there. */
  lemma Arm9VideoByte(s: Maps, p: nat, o: nat)
    requires Reachable(s) && p < 512 && o < 0x4000
    ensures (ReachableBounds(s);
      Translate(ARM9, s, 0x0600_0000 + 0x4000 * p + o)
        == if s.arm9[p] == 41 then Translation(0, true, true) else Translation(0x0600_0000 + 0x4000 * s.arm9[p] + o, false, true))
  {
    ReachableBounds(s);
    var a := 0x0600_0000 + 0x4000 * p + o;
    Quotient(a, BLOCK_16K, 0x1800 + p, o);
    Quotient(0x1800 + p, 512, 12, p);
    assert Collapsed(a) == a && Arm9PageAt(s, a) == s.arm9[p];
    hide Collapsed, Arm9PageAt;
  }

  /** The ARM7 sees two slots of 128 KB, which repeat, each showing a whole bank. */
  lemma Arm7VideoByte(s: Maps, n: nat, slot: nat, o: nat)
    requires Reachable(s) && n < 64 && slot < 2 && o < 0x2_0000
    ensures (ReachableBounds(s);
      Translate(ARM7, s, 0x0600_0000 + 0x4_0000 * n + 0x2_0000 * slot + o)
        == if s.arm7[slot] == 41 then Translation(0, true, false)
           else Translation(0x0600_0000 + 0x4000 * s.arm7[slot] + o, false, false))
  {
    ReachableBounds(s);
    var a := 0x0600_0000 + 0x4_0000 * n + 0x2_0000 * slot + o;
    Quotient(a, 0x2_0000, 2 * (384 + n) + slot, o);
    Quotient(2 * (384 + n) + slot, 2, 384 + n, slot);
  }

  /** The ARM7's own 64 KB repeat from 0x03800000 on, and below as well when the ARM9 has all of
      the shared memory. */
  lemma Arm7WorkByte(s: Maps, n: nat, o: nat)
    requires Reachable(s) && n < 256 && o < 0x1_0000 && (n >= 128 || s.wramCnt == 0)
    ensures (ReachableBounds(s);
      Translate(ARM7, s, 0x0300_0000 + 0x1_0000 * n + o) == Translation(0x0380_0000 + o, false, false))
  {
    ReachableBounds(s);
    var a, b, r := 0x0300_0000 + 0x1_0000 * n + o, o / 0x4000, o % 0x4000;
    Quotient(a, BLOCK_16K, 4 * (0x300 + n) + b, r);
    Quotient(4 * (0x300 + n) + b, 4, 0x300 + n, b);
    Quotient(a, 0x80_0000, 6 + n / 128, 0x1_0000 * (n % 128) + o);
  }

  /** The shared 32 KB for each WRAMCNT: all of it, its second half or its first half, repeating
      over the range; what is not the ARM9's is the ARM7's. */
  lemma SharedByte(s: Maps, proc: int, n: nat, h: nat, o: nat)
    requires Reachable(s) && n < 256 && h < 2 && o < 0x4000 && (proc == ARM9 || proc == ARM7)
    ensures (ReachableBounds(s);
      var t := Translate(proc, s, 0x0300_0000 + 0x8000 * n + 0x4000 * h + o);
      var half := if (proc == ARM9 && s.wramCnt == 0) || (proc == ARM7 && s.wramCnt == 3) then h
                  else if (proc == ARM9) == (s.wramCnt == 1) then 1 else 0;
      if proc == ARM9 && s.wramCnt == 3 then t == Translation(0, true, false)
      else !(proc == ARM7 && s.wramCnt == 0) ==> t == Translation(0x0300_0000 + 0x4000 * half + o, false, false))
  {
    ReachableBounds(s);
    var a := 0x0300_0000 + 0x8000 * n + 0x4000 * h + o;
    Quotient(a, BLOCK_16K, 2 * (0x600 + n) + h, o);
    Quotient(2 * (0x600 + n) + h, 2, 0x600 + n, h);
    Quotient(a, 0x80_0000, 6, 0x8000 * n + 0x4000 * h + o);
    FourBlocks(0x600 + n, h);
  }

  lemma FourBlocks(q: nat, h: nat)
    requires h < 2
    ensures (2 * q + h) % 4 % 2 == h
  {
  }

  // ----- Shared work memory -----

  /** Some address of the work-memory range reaches byte o of the shared 32 KB. */
  ghost predicate Reaches(proc: int, s: Maps, o: nat)
    requires Reachable(s) && (proc == ARM9 || proc == ARM7) && o < 0x8000
  {
    ReachableBounds(s);
    exists addr: u32 :: 0x0300_0000 <= addr < 0x0400_0000
      && Translate(proc, s, addr) == Translation(SIWRAM_LOCATION + o, false, false)
  }

  /** Which CPU owns a byte of the shared memory under WRAMCNT. */
  function Owner(wramCnt: int, o: nat): int {
    if wramCnt == 0 then ARM9
    else if wramCnt == 1 then (if o < BLOCK_16K then ARM7 else ARM9)
    else if wramCnt == 2 then (if o < BLOCK_16K then ARM9 else ARM7)
    else ARM7
  }

  /** For every WRAMCNT, each shared byte is reachable from exactly one CPU. */
  lemma SharedByteHasOneOwner(s: Maps, o: nat)
    requires Reachable(s) && o < 0x8000
    ensures Reaches(ARM9, s, o) <==> Owner(s.wramCnt, o) == ARM9
    ensures Reaches(ARM7, s, o) <==> Owner(s.wramCnt, o) == ARM7
  {
    ReachableBounds(s);
    var owner := Owner(s.wramCnt, o);
    assert Translate(owner, s, 0x0300_0000 + o) == Translation(SIWRAM_LOCATION + o, false, false);
  }
}
