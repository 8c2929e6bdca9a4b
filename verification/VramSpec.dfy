/** What each VRAM bank's control byte asks for, stated bank by bank, and the page maps that
    follow from the nine current control bytes alone. */
module VramSpec {
  import opened Types

  type Bank = b: int | 0 <= b < 9
  const A: Bank := 0
  const B: Bank := 1
  const C: Bank := 2
  const D: Bank := 3
  const E: Bank := 4
  const F: Bank := 5
  const G: Bank := 6
  const H: Bank := 7
  const I: Bank := 8

  const UNMAPPED: u8 := 41
  const LCDC_PAGES := 41
  const ARM9_PAGES := 512

  const ABG := 0
  const BBG := 128
  const AOBJ := 256
  const BOBJ := 384

  /** vram_bank_info: first LCDC page and number of 16 KB pages of each bank. */
  function PageAddr(b: Bank): (r: nat)
    ensures r + NumPages(b) <= LCDC_PAGES
  {
    if b <= E then 8 * b else if b == F then 36 else if b == G then 37 else if b == H then 38 else 40
  }

  function NumPages(b: Bank): nat {
    if b <= D then 8 else if b == E then 4 else if b == H then 2 else 1
  }

  /** The byte behind each bank; block 7 is WRAMCNT, so banks H and I sit one further. */
  function BlockOf(b: Bank): (r: nat)
    ensures r < 10 && r != 7
  {
    if b >= H then b + 1 else b
  }

  predicate Enabled(c: u8) { c >= 0x80 }

  function Mst(b: Bank, c: u8): nat {
    if b == A || b == B || b == H || b == I then c % 4 else c % 8
  }

  function Ofs(c: u8): nat { c / 8 % 4 }

  /** The irregular page slots of banks F and G. */
  function PageSlot(ofs: nat): (r: nat)
    requires ofs < 4
    ensures r < 6
  {
    if ofs < 2 then ofs else ofs + 2
  }

  /** ARM9 page numbers at which a bank is placed. The small banks appear twice. */
  function Placements(b: Bank, c: u8): (r: seq<nat>)
    ensures |r| <= 2
    ensures forall k :: 0 <= k < |r| ==> r[k] + NumPages(b) <= ARM9_PAGES
  {
    var mst, ofs := Mst(b, c), Ofs(c);
    if !Enabled(c) then []
    else if b <= B then
      if mst == 1 then [ABG + 8 * ofs] else if mst == 2 && ofs < 2 then [AOBJ + 8 * ofs] else []
    else if b <= D then
      if mst == 1 then [ABG + 8 * ofs] else if mst == 4 then [if b == C then BBG else BOBJ] else []
    else if b == E then
      if mst == 1 then [ABG] else if mst == 2 then [AOBJ] else []
    else if b <= G then
      if mst == 1 then [ABG + PageSlot(ofs), ABG + PageSlot(ofs) + 2]
      else if mst == 2 then [AOBJ + PageSlot(ofs), AOBJ + PageSlot(ofs) + 2] else []
    else if b == H then
      if mst == 1 then [BBG, BBG + 4] else []
    else
      if mst == 1 then [BBG + 2, BBG + 3] else if mst == 2 then [BOBJ, BOBJ + 1] else []
  }

  /** The LCDC page a bank shows at ARM9 page p, if it shows any. */
  function PageAt(b: Bank, c: u8, p: nat): (r: Option<u8>)
    ensures r.Some? ==> PageAddr(b) <= r.value < PageAddr(b) + NumPages(b)
  {
    var o, n := Placements(b, c), NumPages(b);
    if |o| > 1 && o[1] <= p < o[1] + n then Some(PageAddr(b) + (p - o[1]))
    else if |o| > 0 && o[0] <= p < o[0] + n then Some(PageAddr(b) + (p - o[0]))
    else None
  }

  predicate IsLcdc(b: Bank, c: u8) { Enabled(c) && Mst(b, c) == 0 }

  /** Banks C and D can be handed to the ARM7. */
  predicate IsArm7(b: Bank, c: u8) { (b == C || b == D) && Enabled(c) && Mst(b, c) == 2 }

  // ----- The maps as functions of the control bytes -----

  type Control = s: seq<u8> | |s| == 10 witness seq(10, i => 0)

  function Cnt(r: Control, b: Bank): u8 { r[BlockOf(b)] }

  /** Which bank wins a page: D over C over B over A over E over F over G over H over I. */
  function Rank(k: nat): Bank
    requires k < 9
  {
    if k == 0 then D else if k == 1 then C else if k == 2 then B else if k == 3 then A else k
  }

  function RankOf(b: Bank): (k: nat)
    ensures k < 9 && Rank(k) == b
  {
    if b <= D then 3 - b else b
  }

  function Winner(r: Control, p: nat, k: nat): (w: Option<Bank>)
    requires k <= 9
    ensures w.Some? ==> PageAt(w.value, Cnt(r, w.value), p).Some?
    decreases 9 - k
  {
    if k == 9 then None
    else if PageAt(Rank(k), Cnt(r, Rank(k)), p).Some? then Some(Rank(k))
    else Winner(r, p, k + 1)
  }

  /** The mappable page that page p of a region repeats: the A-BG, B-BG, A-OBJ and B-OBJ
      regions have 32, 8, 16 and 8 mappable pages. */
  function Canonical(p: nat): nat
    requires p < ARM9_PAGES
  {
    if p < BBG then p % 32
    else if p < AOBJ then BBG + (p - BBG) % 8
    else if p < BOBJ then AOBJ + (p - AOBJ) % 16
    else BOBJ + (p - BOBJ) % 8
  }

  function Fold(i: nat, size: nat): (r: nat)
    requires size == 8 || size == 16 || size == 32
    ensures r < size && r <= i && (i < size ==> r == i)
  {
    if size == 8 then i % 8 else if size == 16 then i % 16 else i % 32
  }

  lemma CanonicalInRegion(region: int, size: nat, i: nat)
    requires (region == ABG && size == 32) || (region == BBG && size == 8)
          || (region == AOBJ && size == 16) || (region == BOBJ && size == 8)
    requires i < 128
    ensures Canonical(region + i) == region + Fold(i, size)
    ensures Canonical(region + Fold(i, size)) == region + Fold(i, size)
  {
  }

  /** The page shown by the best-ranked bank among ranks k and up. */
  function RawPage(r: Control, p: nat, k: nat): u8
    requires k <= 9
  {
    var w := Winner(r, p, k);
    if w.Some? then PageAt(w.value, Cnt(r, w.value), p).value else UNMAPPED
  }

  function Arm9Page(r: Control, p: nat): u8
    requires p < ARM9_PAGES
  {
    RawPage(r, Canonical(p), 0)
  }

  function BankOfPage(page: nat): (b: Bank)
    requires page < LCDC_PAGES
    ensures PageAddr(b) <= page < PageAddr(b) + NumPages(b)
  {
    if page < 32 then page / 8
    else if page < 36 then E
    else if page == 36 then F
    else if page == 37 then G
    else if page < 40 then H
    else I
  }

  function LcdcPage(r: Control, page: nat): u8
    requires page < LCDC_PAGES
  {
    var b := BankOfPage(page);
    if IsLcdc(b, Cnt(r, b)) then page else UNMAPPED
  }

  /** The LCDC map after the banks of ranks k and up. */
  function LcdcUpto(r: Control, page: nat, k: nat): u8
    requires page < LCDC_PAGES
  {
    if RankOf(BankOfPage(page)) >= k then LcdcPage(r, page) else UNMAPPED
  }

  /** The ARM7 slots and status after the banks of ranks k and up; only C and D count. */
  function Arm7Upto(r: Control, slot: nat, k: nat): u8 {
    if k == 0 && IsArm7(D, Cnt(r, D)) && Ofs(Cnt(r, D)) == slot then PageAddr(D)
    else if k <= 1 && IsArm7(C, Cnt(r, C)) && Ofs(Cnt(r, C)) == slot then PageAddr(C)
    else UNMAPPED
  }

  function Arm7StatUpto(r: Control, k: nat): u8 {
    (if k <= 1 && IsArm7(C, Cnt(r, C)) then 1 else 0) + (if k == 0 && IsArm7(D, Cnt(r, D)) then 2 else 0)
  }
}
