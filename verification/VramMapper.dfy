/** The VRAM mapper: page arrays rebuilt in place on every bank-control write. */
module VramMapper {
  import opened Types
  import opened VramSpec
  import opened VramTables

  datatype Purpose = Off | Invalid | BgA | BgB | ObjA | ObjB | Lcdc | Arm7 | Texture | TexturePalette
                   | BgPaletteA | BgPaletteB | ObjPaletteA | ObjPaletteB

  /** vramConfiguration.banks[b].purpose as a bank refresh records it. */
  function PurposeOf(b: Bank, c: u8): Purpose {
    var mst, ofs := Mst(b, c), Ofs(c);
    if !Enabled(c) then Off
    else if mst == 0 then Lcdc
    else if b <= D then
      if mst == 1 then BgA
      else if mst == 2 then (if b <= B then ObjA else Arm7)
      else if mst == 3 then Texture
      else if mst == 4 then (if b == C then BgB else ObjB)
      else Invalid
    else if b <= G then
      if mst == 1 then BgA else if mst == 2 then ObjA else if mst == 3 then TexturePalette
      else if mst == 4 then (if b == E || ofs < 2 then BgPaletteA else Invalid)
      else if mst == 5 && b != E then ObjPaletteA
      else Invalid
    else if mst == 1 then BgB
    else if mst == 2 then (if b == H then BgPaletteB else ObjB)
    else if b == I then ObjPaletteB
    else Invalid
  }

  function PurposeUpto(r: Control, b: Bank, k: nat): Purpose {
    if RankOf(b) >= k then PurposeOf(b, Cnt(r, b)) else Off
  }

  /** How each map grows by the bank of rank k. */
  lemma RankStep(r: Control, k: nat)
    requires k < 9
    ensures forall p: nat :: RawPage(r, p, k) ==
              var a := PageAt(Rank(k), Cnt(r, Rank(k)), p); if a.Some? then a.value else RawPage(r, p, k + 1)
    ensures forall p :: 0 <= p < LCDC_PAGES ==>
              LcdcUpto(r, p, k) == if IsLcdc(Rank(k), Cnt(r, Rank(k))) && BankOfPage(p) == Rank(k) then p else LcdcUpto(r, p, k + 1)
    ensures forall b: Bank :: PurposeUpto(r, b, k) == if b == Rank(k) then PurposeOf(b, Cnt(r, b)) else PurposeUpto(r, b, k + 1)
    ensures PurposeUpto(r, Rank(k), k + 1) == Off
    ensures Rebuilt(r, k) == Refresh(Rank(k), Cnt(r, Rank(k)), Rebuilt(r, k + 1))
  {
    hide PageAt, PurposeOf, Refresh;
  }

  /** The same for the two ARM7 slots and their status. */
  lemma Arm7Step(r: Control, k: nat, s: nat)
    requires k < 9
    ensures var b := Rank(k); var c := Cnt(r, b);
      && Arm7Upto(r, s, k) == (if IsArm7(b, c) && Ofs(c) == s then PageAddr(b) else Arm7Upto(r, s, k + 1))
      && (b == C || b == D ==> Arm7StatUpto(r, k + 1) <= (if b == D then 1 else 0))
      && Arm7StatUpto(r, k) == Arm7StatUpto(r, k + 1) + (if IsArm7(b, c) then (if b == C then 1 else 2) else 0)
  {
  }

  /** v | bit, for one of the two low bits. */
  function SetBit(v: u8, bit: nat): (r: u8)
    requires bit == 1 || bit == 2
    ensures r / bit % 2 == 1
  {
    if v / bit % 2 == 1 then v else v + bit
  }

  class Mapper {
    const arm9: array<u8>     // vram_arm9_map
    const lcdc: array<u8>     // vram_lcdc_map
    const arm7: array<u8>     // vram_arm7_map
    const cnt: array<u8>      // ARM9 registers 0x240..0x249
    var arm7Stat: u8          // ARM7 register 0x240
    var wramCnt: int
    var purpose: seq<Purpose>
    var tables: Tables

    ghost predicate Shaped()
      reads this
    {
      && arm9.Length == ARM9_PAGES && lcdc.Length == LCDC_PAGES && arm7.Length == 2 && cnt.Length == 10
      && |purpose| == 9 && tables.Shaped() && 0 <= wramCnt < 4
    }

    /** MMU_Reset: registers zero and everything unmapped. */
    constructor ()
      ensures Valid()
      ensures cnt[..] == seq(10, i => 0) && wramCnt == 0
    {
      arm9 := new u8[ARM9_PAGES](i => UNMAPPED);
      lcdc := new u8[LCDC_PAGES](i => UNMAPPED);
      arm7 := new u8[2](i => UNMAPPED);
      cnt := new u8[10](i => 0);
      arm7Stat := 0;
      wramCnt := 0;
      purpose := seq(9, i => Off);
      tables := Cleared();
      new;
      assert cnt[..] == seq(10, i => 0);
    }

    /** Every map is the one the current control bytes define. */
    ghost predicate Valid()
      reads this, arm9, lcdc, arm7, cnt
    {
      && Shaped()
      && (forall p :: 0 <= p < ARM9_PAGES ==> arm9[p] == Arm9Page(cnt[..], p))
      && (forall p :: 0 <= p < LCDC_PAGES ==> lcdc[p] == LcdcPage(cnt[..], p))
      && (forall s :: 0 <= s < 2 ==> arm7[s] == Arm7Upto(cnt[..], s, 0))
      && arm7Stat == Arm7StatUpto(cnt[..], 0)
      && tables == Rebuilt(cnt[..], 0)
      && forall b: Bank :: purpose[b] == PurposeOf(b, Cnt(cnt[..], b))
    }

    /** MMU_VRAM_unmap_all */
    method UnmapAll()
      requires Shaped()
      modifies this`purpose, this`tables, arm9, lcdc, arm7
      ensures Shaped()
      ensures forall p :: 0 <= p < ARM9_PAGES ==> arm9[p] == UNMAPPED
      ensures forall p :: 0 <= p < LCDC_PAGES ==> lcdc[p] == UNMAPPED
      ensures arm7[0] == arm7[1] == UNMAPPED
      ensures tables == Cleared() && purpose == seq(9, i => Off)
    {
      purpose := seq(9, i => Off);
      arm7[0] := UNMAPPED;
      arm7[1] := UNMAPPED;
      for i := 0 to LCDC_PAGES
        modifies lcdc
        invariant forall p :: 0 <= p < i ==> lcdc[p] == UNMAPPED
      {
        lcdc[i] := UNMAPPED;
      }
      for i := 0 to ARM9_PAGES
        modifies arm9
        invariant forall p :: 0 <= p < i ==> arm9[p] == UNMAPPED
      {
        arm9[i] := UNMAPPED;
      }
      tables := Cleared();
    }

    /** MMU_vram_lcdc */
    method MapLcdc(b: Bank)
      requires Shaped()
      modifies lcdc
      ensures forall p :: 0 <= p < LCDC_PAGES ==>
                lcdc[p] == if PageAddr(b) <= p < PageAddr(b) + NumPages(b) then p else old(lcdc[p])
    {
      for i := 0 to NumPages(b)
        invariant forall p :: 0 <= p < LCDC_PAGES ==>
                    lcdc[p] == if PageAddr(b) <= p < PageAddr(b) + i then p else old(lcdc[p])
      {
        var page := PageAddr(b) + i;
        lcdc[page] := page;
      }
    }

    /** MMU_vram_arm9 */
    method MapArm9(b: Bank, offset: nat)
      requires Shaped() && offset + NumPages(b) <= ARM9_PAGES
      modifies arm9
      ensures forall p :: 0 <= p < ARM9_PAGES ==>
                arm9[p] == if offset <= p < offset + NumPages(b) then PageAddr(b) + (p - offset) else old(arm9[p])
    {
      for i := 0 to NumPages(b)
        invariant forall p :: 0 <= p < ARM9_PAGES ==>
                    arm9[p] == if offset <= p < offset + i then PageAddr(b) + (p - offset) else old(arm9[p])
      {
        var page := PageAddr(b) + i;
        arm9[i + offset] := page;
      }
    }

    /** The effect of one bank refresh on each map. */
    twostate predicate Refreshed(b: Bank, c: u8)
      reads this, arm9, lcdc, arm7
      requires old(Shaped()) && Shaped()
    {
      && (forall p :: 0 <= p < ARM9_PAGES ==>
            arm9[p] == var a := PageAt(b, c, p); if a.Some? then a.value else old(arm9[p]))
      && (forall p :: 0 <= p < LCDC_PAGES ==>
            lcdc[p] == if IsLcdc(b, c) && BankOfPage(p) == b then p else old(lcdc[p]))
      && (forall s :: 0 <= s < 2 ==>
            arm7[s] == if IsArm7(b, c) && Ofs(c) == s then PageAddr(b) else old(arm7[s]))
      && tables == Refresh(b, c, old(tables))
      && purpose == old(purpose)[b := PurposeOf(b, c)]
    }

    /** Banks A and B. */
    method RefreshAB(b: Bank, c: u8)
      requires Shaped() && b <= B && purpose[b] == Off
      modifies this`purpose, this`tables, arm9, lcdc
      ensures Shaped() && Refreshed(b, c)
    {
      if !Enabled(c) { return; }
      var mst, ofs := c % 4, c / 8 % 4;
      match mst {
        case 0 =>
          purpose := purpose[b := Lcdc];
          MapLcdc(b);
        case 1 =>
          purpose := purpose[b := BgA];
          MapArm9(b, ABG + ofs * 8);
        case 2 =>
          purpose := purpose[b := ObjA];
          if ofs == 0 || ofs == 1 {
            MapArm9(b, AOBJ + ofs * 8);
          }
        case _ =>
          purpose := purpose[b := Texture];
          tables := tables.(texSlot := tables.texSlot[ofs := Physical(PageAddr(b))]);
      }
    }

    /** Bank C or D handed to the ARM7 (MST 2). */
    method HandToArm7(b: Bank, c: u8)
      requires Shaped() && IsArm7(b, c) && purpose[b] == Off
      requires arm7Stat <= (if b == D then 1 else 0)
      modifies this`purpose, this`arm7Stat, arm7
      ensures Shaped() && Refreshed(b, c)
      ensures arm7Stat == old(arm7Stat) + (if b == C then 1 else 2)
    {
      var ofs := c / 8 % 4;
      purpose := purpose[b := Arm7];
      if b == C { arm7Stat := SetBit(arm7Stat, 1); }
      if b == D { arm7Stat := SetBit(arm7Stat, 2); }
      if ofs == 0 || ofs == 1 {
        arm7[ofs] := PageAddr(b);
      }
    }

    /** Banks C and D. */
    method RefreshCD(b: Bank, c: u8)
      requires Shaped() && (b == C || b == D) && purpose[b] == Off
      requires arm7Stat <= (if b == D then 1 else 0)
      modifies this`purpose, this`tables, this`arm7Stat, arm9, lcdc, arm7
      ensures Shaped() && Refreshed(b, c)
      ensures arm7Stat == old(arm7Stat) + (if IsArm7(b, c) then (if b == C then 1 else 2) else 0)
    {
      if !Enabled(c) { return; }
      var mst, ofs := c % 8, c / 8 % 4;
      if mst == 2 {
        HandToArm7(b, c);
        return;
      }
      match mst {
        case 0 =>
          purpose := purpose[b := Lcdc];
          MapLcdc(b);
        case 1 =>
          purpose := purpose[b := BgA];
          MapArm9(b, ABG + ofs * 8);
        case 3 =>
          purpose := purpose[b := Texture];
          tables := tables.(texSlot := tables.texSlot[ofs := Physical(PageAddr(b))]);
        case 4 =>
          if b == C {
            purpose := purpose[b := BgB];
            MapArm9(b, BBG);
          } else {
            purpose := purpose[b := ObjB];
            MapArm9(b, BOBJ);
          }
        case _ =>
          purpose := purpose[b := Invalid];
      }
    }

    method RefreshE(c: u8)
      requires Shaped() && purpose[E] == Off
      modifies this`purpose, this`tables, arm9, lcdc
      ensures Shaped() && Refreshed(E, c)
    {
      if !Enabled(c) { return; }
      var page := PageAddr(E);
      match c % 8 {
        case 0 =>
          purpose := purpose[E := Lcdc];
          MapLcdc(E);
        case 1 =>
          purpose := purpose[E := BgA];
          MapArm9(E, ABG);
        case 2 =>
          purpose := purpose[E := ObjA];
          MapArm9(E, AOBJ);
        case 3 =>
          purpose := purpose[E := TexturePalette];
          var t := tables.texPal;
          t := t[0 := Physical(page)];
          t := t[1 := Physical(page + 1)];
          t := t[2 := Physical(page + 2)];
          t := t[3 := Physical(page + 3)];
          assert t == [Physical(page), Physical(page + 1), Physical(page + 2), Physical(page + 3)] + tables.texPal[4..];
          tables := tables.(texPal := t);
        case 4 =>
          purpose := purpose[E := BgPaletteA];
          tables := tables.(bgExtA := FourSlots(page));
        case _ =>
          purpose := purpose[E := Invalid];
      }
    }

    /** Bank F or G as a texture or extended palette (MST 3, 4 and 5). */
    method RefreshFGPalette(b: Bank, c: u8)
      requires Shaped() && (b == F || b == G) && purpose[b] == Off
      requires Enabled(c) && 3 <= c % 8 <= 5
      modifies this`purpose, this`tables
      ensures Shaped() && Refreshed(b, c)
    {
      var mst, ofs := c % 8, c / 8 % 4;
      var page := PageAddr(b);
      match mst {
        case 3 =>
          purpose := purpose[b := TexturePalette];
          tables := tables.(texPal := tables.texPal[PageSlot(ofs) := Physical(page)]);
        case 4 =>
          if ofs == 0 || ofs == 1 {
            purpose := purpose[b := BgPaletteA];
            var t := tables.bgExtA[ofs * 2 := Physical(page)];
            t := t[ofs * 2 + 1 := Advance(t[ofs * 2], STEP_8KB)];
            tables := tables.(bgExtA := t);
          } else {
            purpose := purpose[b := Invalid];
          }
        case _ =>
          purpose := purpose[b := ObjPaletteA];
          tables := tables.(objExtA := [Physical(page), Advance(tables.objExtA[1], STEP_8KB)]);
      }
    }

    /** Banks F and G, each placed twice. */
    method RefreshFG(b: Bank, c: u8)
      requires Shaped() && (b == F || b == G) && purpose[b] == Off
      modifies this`purpose, this`tables, arm9, lcdc
      ensures Shaped() && Refreshed(b, c)
    {
      if !Enabled(c) { return; }
      var mst := c % 8;
      var pageOfs := PageSlot(c / 8 % 4);
      if 3 <= mst <= 5 {
        RefreshFGPalette(b, c);
        return;
      }
      match mst {
        case 0 =>
          purpose := purpose[b := Lcdc];
          MapLcdc(b);
        case 1 =>
          purpose := purpose[b := BgA];
          MapArm9(b, ABG + pageOfs);
          MapArm9(b, ABG + pageOfs + 2);
        case 2 =>
          purpose := purpose[b := ObjA];
          MapArm9(b, AOBJ + pageOfs);
          MapArm9(b, AOBJ + pageOfs + 2);
        case _ =>
          purpose := purpose[b := Invalid];
      }
    }

    /** Banks H and I. */
    method RefreshHI(b: Bank, c: u8)
      requires Shaped() && (b == H || b == I) && purpose[b] == Off
      modifies this`purpose, this`tables, arm9, lcdc
      ensures Shaped() && Refreshed(b, c)
    {
      if !Enabled(c) { return; }
      var page := PageAddr(b);
      match c % 4 {
        case 0 =>
          purpose := purpose[b := Lcdc];
          MapLcdc(b);
        case 1 =>
          purpose := purpose[b := BgB];
          if b == H {
            MapArm9(H, BBG);
            MapArm9(H, BBG + 4);
          } else {
            MapArm9(I, BBG + 2);
            MapArm9(I, BBG + 3);
          }
        case 2 =>
          if b == H {
            purpose := purpose[H := BgPaletteB];
            tables := tables.(bgExtB := FourSlots(page));
          } else {
            purpose := purpose[I := ObjB];
            MapArm9(I, BOBJ);
            MapArm9(I, BOBJ + 1);
          }
        case _ =>
          if b == I {
            purpose := purpose[I := ObjPaletteB];
            tables := tables.(objExtB := [Physical(page), Advance(tables.objExtB[1], STEP_8KB)]);
          } else {
            purpose := purpose[H := Invalid];
          }
      }
    }

    /** MMU_VRAMmapRefreshBank: each bank reads its own control byte. */
    method RefreshBank(b: Bank)
      requires Shaped() && purpose[b] == Off
      requires b == C || b == D ==> arm7Stat <= (if b == D then 1 else 0)
      modifies this`purpose, this`tables, this`arm7Stat, arm9, lcdc, arm7
      ensures Shaped() && Refreshed(b, Cnt(cnt[..], b))
      ensures arm7Stat == old(arm7Stat) + (if IsArm7(b, Cnt(cnt[..], b)) then (if b == C then 1 else 2) else 0)
    {
      var c := cnt[BlockOf(b)];
      if b <= B {
        RefreshAB(b, c);
      } else if b <= D {
        RefreshCD(b, c);
      } else if b == E {
        RefreshE(c);
      } else if b <= G {
        RefreshFG(b, c);
      } else {
        RefreshHI(b, c);
      }
    }

    /** The state after the banks of ranks k and up were refreshed over cleared maps. */
    ghost predicate Progress(r: Control, k: nat)
      reads this, arm9, lcdc, arm7, cnt
      requires k <= 9
    {
      && Shaped() && r == cnt[..]
      && (forall p :: 0 <= p < ARM9_PAGES ==> arm9[p] == RawPage(r, p, k))
      && (forall p :: 0 <= p < LCDC_PAGES ==> lcdc[p] == LcdcUpto(r, p, k))
      && (forall s :: 0 <= s < 2 ==> arm7[s] == Arm7Upto(r, s, k))
      && arm7Stat == Arm7StatUpto(r, k)
      && tables == Rebuilt(r, k)
      && forall b: Bank :: purpose[b] == PurposeUpto(r, b, k)
    }

    method RefreshRank(k: nat, ghost r: Control)
      requires k < 9 && Progress(r, k + 1)
      modifies this`purpose, this`tables, this`arm7Stat, arm9, lcdc, arm7
      ensures Progress(r, k)
    {
      RankStep(r, k);
      Arm7Step(r, k, 0);
      Arm7Step(r, k, 1);
      RefreshBank(Rank(k));
    }

    /** Fill a region beyond its mappable pages with copies of them. */
    method Mirror(region: int, size: int)
      requires arm9.Length == ARM9_PAGES
      requires (region == ABG && size == 32) || (region == BBG && size == 8)
            || (region == AOBJ && size == 16) || (region == BOBJ && size == 8)
      modifies arm9
      ensures forall p :: 0 <= p < ARM9_PAGES ==>
                arm9[p] == if region <= p < region + 128 then old(arm9[Canonical(p)]) else old(arm9[p])
    {
      forall p | region <= p < region + size ensures Canonical(p) == p {
        CanonicalInRegion(region, size, p - region);
      }
      for i := size to 128
        invariant forall p :: 0 <= p < region + size ==> arm9[p] == old(arm9[p])
        invariant forall p :: region + size <= p < region + i ==> arm9[p] == old(arm9[Canonical(p)])
        invariant forall p :: region + i <= p < ARM9_PAGES ==> arm9[p] == old(arm9[p])
      {
        CanonicalInRegion(region, size, i);
        var page := region + i;
        arm9[page] := arm9[region + Fold(i, size)];
      }
    }

    /** Banks I, H, G, F, E, in this order. */
    method RefreshSmall(ghost r: Control)
      requires Progress(r, 9)
      modifies this`purpose, this`tables, this`arm7Stat, arm9, lcdc, arm7
      ensures Progress(r, 4)
    {
      RefreshRank(8, r);
      RefreshRank(7, r);
      RefreshRank(6, r);
      RefreshRank(5, r);
      RefreshRank(4, r);
    }

    /** Banks A, B, C, D, in this order. */
    method RefreshLarge(ghost r: Control)
      requires Progress(r, 4)
      modifies this`purpose, this`tables, this`arm7Stat, arm9, lcdc, arm7
      ensures Progress(r, 0)
    {
      RefreshRank(3, r);
      RefreshRank(2, r);
      RefreshRank(1, r);
      RefreshRank(0, r);
    }

    /** Cleared maps are where no rank has been applied. */
    lemma NothingMapped(r: Control)
      requires Shaped() && r == cnt[..] && arm7Stat == 0
      requires forall p :: 0 <= p < ARM9_PAGES ==> arm9[p] == UNMAPPED
      requires forall p :: 0 <= p < LCDC_PAGES ==> lcdc[p] == UNMAPPED
      requires arm7[0] == arm7[1] == UNMAPPED
      requires tables == Cleared() && purpose == seq(9, i => Off)
      ensures Progress(r, 9)
    {
    }

    /** Mirroring the fully refreshed maps gives the ones the control bytes define. */
    method MirrorAll(ghost r: Control)
      requires Progress(r, 0)
      modifies arm9
      ensures Valid()
    {
      label before:
      Mirror(ABG, 32);
      Mirror(BBG, 8);
      Mirror(AOBJ, 16);
      Mirror(BOBJ, 8);
      assert forall p :: 0 <= p < ARM9_PAGES ==> arm9[p] == old@before(arm9[Canonical(p)]);
    }

    /** MMU_VRAMmapControl. */
    method MapControl(block: nat, value: u8)
      requires Valid() && block < 10
      modifies this, arm9, lcdc, arm7, cnt
      ensures Valid()
      ensures cnt[..] == if block == 7 then old(cnt[..]) else old(cnt[..])[block := value]
      ensures wramCnt == if block == 7 then value % 4 else old(wramCnt)
    {
      if block == 7 {
        wramCnt := value % 4;
        return;
      }
      UnmapAll();
      arm7Stat := 0;
      cnt[block] := value;
      ghost var r: Control := cnt[..];
      NothingMapped(r);
      RefreshSmall(r);
      RefreshLarge(r);
      MirrorAll(r);
    }
  }
}
