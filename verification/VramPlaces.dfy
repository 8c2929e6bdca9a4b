/** Where each bank appears, from the bits of its control byte alone, when no other bank is
    enabled; and which of several banks an address shows. Control bytes are written as
    128 + 32 * z + 8 * ofs + mst, where z is ignored. */
module VramPlaces {
  import opened Types
  import opened Arith
  import opened VramSpec
  import opened VramTables
  import opened VramTheorems
  import opened VramMapper

  /** Bank b is the only one enabled. */
  predicate Alone(r: Control, b: Bank) {
    forall k :: 0 <= k < 10 && k != 7 && k != BlockOf(b) ==> r[k] < 128
  }

  function ControlByte(z: nat, ofs: nat, mst: nat): (c: nat)
    requires z < 4 && ofs < 4 && mst < 8
    ensures c < 256
  {
    128 + 32 * z + 8 * ofs + mst
  }

  lemma ControlBits(z: nat, ofs: nat, mst: nat)
    requires z < 4 && ofs < 4 && mst < 8
    ensures var c := ControlByte(z, ofs, mst); Enabled(c) && Ofs(c) == ofs && c % 8 == mst && c % 4 == mst % 4
  {
  }

  lemma OthersOff(r: Control, b: Bank, o: Bank)
    requires Alone(r, b) && o != b
    ensures !Enabled(Cnt(r, o))
  {
  }

  /** The page maps then show that bank, or nothing. */
  lemma AlonePage(r: Control, b: Bank, p: nat)
    requires Alone(r, b)
    ensures RawPage(r, p, 0) == var a := PageAt(b, Cnt(r, b), p); if a.Some? then a.value else UNMAPPED
  {
    forall o: Bank | o != b ensures PageAt(o, Cnt(r, o), p).None? { OthersOff(r, b, o); }
    BestRankWins(r, p, 0);
    assert Rank(RankOf(b)) == b;
    forall j | 0 <= j < 9 && j != RankOf(b) ensures PageAt(Rank(j), Cnt(r, Rank(j)), p).None? {
      assert RankOf(Rank(j)) == j;
    }
  }

  /** The pointer tables come from that bank alone. */
  lemma AloneTables(r: Control, b: Bank)
    requires Alone(r, b)
    ensures Rebuilt(r, 0) == Refresh(b, Cnt(r, b), Cleared())
  {
    TablesUpto(r, b, 0);
  }

  lemma {:induction false} TablesUpto(r: Control, b: Bank, k: nat)
    requires Alone(r, b) && k <= 9
    ensures Rebuilt(r, k) == if k <= RankOf(b) then Refresh(b, Cnt(r, b), Cleared()) else Cleared()
    decreases 9 - k
  {
    hide Refresh;
    if k < 9 {
      TablesUpto(r, b, k + 1);
      assert RankOf(Rank(k)) == k;
      if Rank(k) != b {
        OthersOff(r, b, Rank(k));
        DisabledRefresh(Rank(k), Cnt(r, Rank(k)), Rebuilt(r, k + 1));
      }
    }
  }

  lemma DisabledRefresh(b: Bank, c: u8, t: Tables)
    requires !Enabled(c) && t.Shaped()
    ensures Refresh(b, c, t) == t
  {
  }

  /** The page map, in regions that repeat. */
  lemma AloneArm9(r: Control, b: Bank, p: nat)
    requires Alone(r, b) && p < ARM9_PAGES
    ensures Arm9Page(r, p) == var a := PageAt(b, Cnt(r, b), Mappable(p)); if a.Some? then a.value else UNMAPPED
  {
    assert Mappable(p) == Canonical(p) by { RegionsByNumber(p); }
    hide Canonical, Mappable, PageAt, RawPage;
    AlonePageAt(r, b, p);
  }

  lemma AlonePageAt(r: Control, b: Bank, p: nat)
    requires Alone(r, b) && p < ARM9_PAGES
    ensures Arm9Page(r, p) == var a := PageAt(b, Cnt(r, b), Canonical(p)); if a.Some? then a.value else UNMAPPED
  {
    hide Canonical, PageAt, RawPage;
    AlonePage(r, b, Canonical(p));
  }

  lemma RegionsByNumber(p: nat)
    requires p < 512
    ensures Mappable(p) == Canonical(p)
  {
    if 128 <= p < 256 {
      AddMultiple(p - 128, 16, 8);
    } else if 256 <= p < 384 {
      AddMultiple(p - 256, 16, 16);
    } else if 384 <= p {
      AddMultiple(p - 384, 48, 8);
    }
  }

  /** The four regions begin at pages 0, 128, 256 and 384 and repeat after 32, 8, 16 and 8. */
  function Mappable(p: nat): nat
    requires p < 512
  {
    if p < 128 then p % 32 else if p < 256 then 128 + p % 8 else if p < 384 then 256 + p % 16 else 384 + p % 8
  }

  lemma RegionOf(p: nat)
    requires p < 512
    ensures var q := Mappable(p);
      if p < 128 then q == p % 32 else if p < 256 then q == 128 + p % 8 else if p < 384 then q == 256 + p % 16 else q == 384 + p % 8
  {
  }

  // ----- Banks A and B: 128 KB at LCDC pages 0 and 8 -----

  /** BG and OBJ memory of engine A. Each offset is 128 KB on, and OBJ memory has room for two. */
  lemma BankAB(r: Control, b: Bank, z: nat, ofs: nat, mst: nat, p: nat)
    requires b <= 1 && z < 4 && ofs < 4 && mst < 8 && Alone(r, b) && r[b] == ControlByte(z, ofs, mst) && p < 512
    ensures Arm9Page(r, p) ==
            if mst % 4 == 1 && p < 128 && 8 * ofs <= p % 32 < 8 * ofs + 8 then 8 * b + (p % 32 - 8 * ofs)
            else if mst % 4 == 2 && ofs < 2 && 256 <= p < 384 && 8 * ofs <= p % 16 < 8 * ofs + 8 then 8 * b + (p % 16 - 8 * ofs)
            else 41
  {
    ControlBits(z, ofs, mst);
    ABAt(b, r[b], Mappable(p));
    hide PageAt, Enabled, Ofs;
    AloneArm9(r, b, p);
    RegionOf(p);
    hide Mappable;
  }

  lemma ABAt(b: Bank, c: u8, q: nat)
    requires b <= 1 && Enabled(c)
    ensures var o := 8 * Ofs(c);
      PageAt(b, c, q) ==
        if c % 4 == 1 && o <= q < o + 8 then Some(8 * b + (q - o))
        else if c % 4 == 2 && o < 16 && 256 + o <= q < 264 + o then Some(8 * b + (q - 256 - o))
        else None
  {
    hide Ofs, Enabled;
  }

  lemma BankABElsewhere(r: Control, b: Bank, z: nat, ofs: nat, mst: nat)
    requires b <= 1 && z < 4 && ofs < 4 && mst < 8 && Alone(r, b) && r[b] == ControlByte(z, ofs, mst)
    ensures forall q :: 0 <= q < 41 ==> LcdcPage(r, q) == if mst % 4 == 0 && q / 8 == b then q else 41
    ensures Arm7Upto(r, 0, 0) == Arm7Upto(r, 1, 0) == 41
    ensures Rebuilt(r, 0) ==
            if mst % 4 == 3 then Cleared().(texSlot := Cleared().texSlot[ofs := Lcd(0x2_0000 * b)]) else Cleared()
  {
    ControlBits(z, ofs, mst);
    AloneTables(r, b);
    forall q | 0 <= q < 41 ensures LcdcPage(r, q) == if mst % 4 == 0 && q / 8 == b then q else 41 {
      AloneLcdc(r, b, q);
    }
    OthersOff(r, b, C);
    OthersOff(r, b, D);
  }

  lemma AloneLcdc(r: Control, b: Bank, q: nat)
    requires Alone(r, b) && q < 41
    ensures LcdcPage(r, q) == if BankOfPage(q) == b && IsLcdc(b, Cnt(r, b)) then q else 41
  {
    if BankOfPage(q) != b { OthersOff(r, b, BankOfPage(q)); }
  }

  // ----- Banks C and D: 128 KB at LCDC pages 16 and 24 -----

  /** BG memory of engine A, and all BG or OBJ memory of engine B. */
  lemma BankCD(r: Control, b: Bank, z: nat, ofs: nat, mst: nat, p: nat)
    requires 2 <= b <= 3 && z < 4 && ofs < 4 && mst < 8 && Alone(r, b) && r[b] == ControlByte(z, ofs, mst) && p < 512
    ensures Arm9Page(r, p) ==
            if mst == 1 && p < 128 && 8 * ofs <= p % 32 < 8 * ofs + 8 then 8 * b + (p % 32 - 8 * ofs)
            else if mst == 4 && b == 2 && 128 <= p < 256 then 16 + p % 8
            else if mst == 4 && b == 3 && 384 <= p then 24 + p % 8
            else 41
  {
    ControlBits(z, ofs, mst);
    CDAt(b, r[b], Mappable(p));
    hide PageAt, Enabled, Ofs;
    AloneArm9(r, b, p);
    RegionOf(p);
    hide Mappable;
  }

  lemma CDAt(b: Bank, c: u8, q: nat)
    requires 2 <= b <= 3 && Enabled(c)
    ensures var o, home := 8 * Ofs(c), if b == 2 then 128 else 384;
      PageAt(b, c, q) ==
        if c % 8 == 1 && o <= q < o + 8 then Some(8 * b + (q - o))
        else if c % 8 == 4 && home <= q < home + 8 then Some(8 * b + (q - home))
        else None
  {
    hide Ofs, Enabled;
  }

  /** The LCDC window, the ARM7's two slots of 128 KB and the four texture slots. */
  lemma BankCDElsewhere(r: Control, b: Bank, z: nat, ofs: nat, mst: nat)
    requires 2 <= b <= 3 && z < 4 && ofs < 4 && mst < 8 && Alone(r, b) && r[b] == ControlByte(z, ofs, mst)
    ensures forall q :: 0 <= q < 41 ==> LcdcPage(r, q) == if mst == 0 && q / 8 == b then q else 41
    ensures forall s :: 0 <= s < 2 ==> Arm7Upto(r, s, 0) == if mst == 2 && ofs == s then 8 * b else 41
    ensures Rebuilt(r, 0) ==
            if mst == 3 then Cleared().(texSlot := Cleared().texSlot[ofs := Lcd(0x2_0000 * b)]) else Cleared()
  {
    ControlBits(z, ofs, mst);
    AloneTables(r, b);
    forall q | 0 <= q < 41 ensures LcdcPage(r, q) == if mst == 0 && q / 8 == b then q else 41 {
      AloneLcdc(r, b, q);
    }
    OthersOff(r, b, if b == C then D else C);
  }

  // ----- Bank E: 64 KB at LCDC page 32 -----

  lemma BankE(r: Control, z: nat, ofs: nat, mst: nat, p: nat)
    requires z < 4 && ofs < 4 && mst < 8 && Alone(r, 4) && r[4] == ControlByte(z, ofs, mst) && p < 512
    ensures Arm9Page(r, p) ==
            if mst == 1 && p < 128 && p % 32 < 4 then 32 + p % 32
            else if mst == 2 && 256 <= p < 384 && p % 16 < 4 then 32 + p % 16
            else 41
  {
    ControlBits(z, ofs, mst);
    EAt(r[4], Mappable(p));
    hide PageAt, Enabled, Ofs;
    AloneArm9(r, E, p);
    RegionOf(p);
    hide Mappable;
  }

  lemma EAt(c: u8, q: nat)
    requires Enabled(c)
    ensures PageAt(E, c, q) ==
            if c % 8 == 1 && q < 4 then Some(32 + q) else if c % 8 == 2 && 256 <= q < 260 then Some(32 + (q - 256)) else None
  {
  }

  /** All of it as four texture palettes, or its first 32 KB as the four extended BG palettes of
      engine A. */
  lemma BankEElsewhere(r: Control, z: nat, ofs: nat, mst: nat)
    requires z < 4 && ofs < 4 && mst < 8 && Alone(r, 4) && r[4] == ControlByte(z, ofs, mst)
    ensures forall q :: 0 <= q < 41 ==> LcdcPage(r, q) == if mst == 0 && 32 <= q < 36 then q else 41
    ensures Arm7Upto(r, 0, 0) == Arm7Upto(r, 1, 0) == 41
    ensures Rebuilt(r, 0) ==
            if mst == 3 then Cleared().(texPal := [Lcd(0x8_0000), Lcd(0x8_4000), Lcd(0x8_8000), Lcd(0x8_C000), Blank(0), Blank(0)])
            else if mst == 4 then Cleared().(bgExtA := [Lcd(0x8_0000), Lcd(0x8_2000), Lcd(0x8_4000), Lcd(0x8_6000)])
            else Cleared()
  {
    ControlBits(z, ofs, mst);
    AloneTables(r, E);
    forall q | 0 <= q < 41 ensures LcdcPage(r, q) == if mst == 0 && 32 <= q < 36 then q else 41 {
      AloneLcdc(r, E, q);
    }
    OthersOff(r, E, C);
    OthersOff(r, E, D);
  }

  // ----- Banks F and G: 16 KB at LCDC pages 36 and 37 -----

  /** BG or OBJ memory of engine A: offsets 0 to 3 begin at pages 0, 1, 4 and 5, and the bank
      appears there and two pages on. */
  lemma BankFG(r: Control, b: Bank, z: nat, ofs: nat, mst: nat, p: nat)
    requires 5 <= b <= 6 && z < 4 && ofs < 4 && mst < 8 && Alone(r, b) && r[b] == ControlByte(z, ofs, mst) && p < 512
    ensures var at := ofs % 2 + 4 * (ofs / 2);
      Arm9Page(r, p) ==
        if mst == 1 && p < 128 && (p % 32 == at || p % 32 == at + 2) then 31 + b
        else if mst == 2 && 256 <= p < 384 && (p % 16 == at || p % 16 == at + 2) then 31 + b
        else 41
  {
    ControlBits(z, ofs, mst);
    FGAt(b, r[b], Mappable(p));
    hide PageAt, Enabled, Ofs;
    AloneArm9(r, b, p);
    RegionOf(p);
    hide Mappable;
  }

  lemma FGAt(b: Bank, c: u8, q: nat)
    requires 5 <= b <= 6 && Enabled(c)
    ensures var at := Ofs(c) % 2 + 4 * (Ofs(c) / 2);
      PageAt(b, c, q) ==
        if c % 8 == 1 && (q == at || q == at + 2) then Some(31 + b)
        else if c % 8 == 2 && (q == 256 + at || q == 256 + at + 2) then Some(31 + b)
        else None
  {
    hide Ofs, Enabled;
  }

  /** The texture palette of that number; a pair of extended BG palettes for offsets 0 and 1; or
      the first half of the extended OBJ palette, whose second half stays in blank memory. */
  lemma BankFGElsewhere(r: Control, b: Bank, z: nat, ofs: nat, mst: nat)
    requires 5 <= b <= 6 && z < 4 && ofs < 4 && mst < 8 && Alone(r, b) && r[b] == ControlByte(z, ofs, mst)
    ensures forall q :: 0 <= q < 41 ==> LcdcPage(r, q) == if mst == 0 && q == 31 + b then q else 41
    ensures Arm7Upto(r, 0, 0) == Arm7Upto(r, 1, 0) == 41
    ensures var at, lcd := ofs % 2 + 4 * (ofs / 2), 0x4000 * (31 + b);
      Rebuilt(r, 0) ==
        if mst == 3 then Cleared().(texPal := Cleared().texPal[at := Lcd(lcd)])
        else if mst == 4 && ofs < 2 then
          Cleared().(bgExtA := Cleared().bgExtA[2 * ofs := Lcd(lcd)][2 * ofs + 1 := Lcd(lcd + 0x2000)])
        else if mst == 5 then Cleared().(objExtA := [Lcd(lcd), Blank(0x2000)])
        else Cleared()
  {
    ControlBits(z, ofs, mst);
    FGTables(b, r[b]);
    hide Refresh, Enabled, Ofs;
    AloneTables(r, b);
    forall q | 0 <= q < 41 ensures LcdcPage(r, q) == if mst == 0 && q == 31 + b then q else 41 {
      AloneLcdc(r, b, q);
    }
    OthersOff(r, b, C);
    OthersOff(r, b, D);
  }

  lemma FGTables(b: Bank, c: u8)
    requires 5 <= b <= 6 && Enabled(c)
    ensures var ofs, mst := Ofs(c), c % 8; var at, lcd := ofs % 2 + 4 * (ofs / 2), 0x4000 * (31 + b);
      Refresh(b, c, Cleared()) ==
        if mst == 3 then Cleared().(texPal := Cleared().texPal[at := Lcd(lcd)])
        else if mst == 4 && ofs < 2 then
          Cleared().(bgExtA := Cleared().bgExtA[2 * ofs := Lcd(lcd)][2 * ofs + 1 := Lcd(lcd + 0x2000)])
        else if mst == 5 then Cleared().(objExtA := [Lcd(lcd), Blank(0x2000)])
        else Cleared()
  {
    hide Enabled, Ofs;
  }

  // ----- Bank H: 32 KB at LCDC pages 38 and 39; bank I: 16 KB at page 40 -----

  /** Bank H in BG memory of engine B twice, bank I in the gap between, or in its OBJ memory; the
      upper bits of the purpose and the offset are ignored. */
  lemma BankHI(r: Control, b: Bank, z: nat, ofs: nat, mst: nat, p: nat)
    requires 7 <= b && z < 4 && ofs < 4 && mst < 8 && Alone(r, b) && r[b + 1] == ControlByte(z, ofs, mst) && p < 512
    ensures Arm9Page(r, p) ==
            if b == 7 && mst % 4 == 1 && 128 <= p < 256 && p % 8 < 2 then 38 + p % 8
            else if b == 7 && mst % 4 == 1 && 128 <= p < 256 && 4 <= p % 8 < 6 then 34 + p % 8
            else if b == 8 && mst % 4 == 1 && 128 <= p < 256 && 2 <= p % 8 < 4 then 40
            else if b == 8 && mst % 4 == 2 && 384 <= p && p % 8 < 2 then 40
            else 41
  {
    ControlBits(z, ofs, mst);
    HIAt(b, r[b + 1], Mappable(p));
    hide PageAt, Enabled, Ofs;
    AloneArm9(r, b, p);
    RegionOf(p);
    hide Mappable;
  }

  lemma HIAt(b: Bank, c: u8, q: nat)
    requires 7 <= b && Enabled(c)
    ensures PageAt(b, c, q) ==
            if b == 7 && c % 4 == 1 && 128 <= q < 130 then Some(38 + (q - 128))
            else if b == 7 && c % 4 == 1 && 132 <= q < 134 then Some(38 + (q - 132))
            else if b == 8 && c % 4 == 1 && 130 <= q < 132 then Some(40)
            else if b == 8 && c % 4 == 2 && 384 <= q < 386 then Some(40)
            else None
  {
    hide Ofs, Enabled;
  }

  /** Bank H as the four extended BG palettes of engine B, bank I as the first half of its extended
      OBJ palette. */
  lemma BankHIElsewhere(r: Control, b: Bank, z: nat, ofs: nat, mst: nat)
    requires 7 <= b && z < 4 && ofs < 4 && mst < 8 && Alone(r, b) && r[b + 1] == ControlByte(z, ofs, mst)
    ensures forall q :: 0 <= q < 41 ==>
              LcdcPage(r, q) == if mst % 4 == 0 && (if b == 7 then q == 38 || q == 39 else q == 40) then q else 41
    ensures Arm7Upto(r, 0, 0) == Arm7Upto(r, 1, 0) == 41
    ensures Rebuilt(r, 0) ==
            if b == 7 && mst % 4 == 2 then Cleared().(bgExtB := [Lcd(0x9_8000), Lcd(0x9_A000), Lcd(0x9_C000), Lcd(0x9_E000)])
            else if b == 8 && mst % 4 == 3 then Cleared().(objExtB := [Lcd(0xA_0000), Blank(0x2000)])
            else Cleared()
  {
    ControlBits(z, ofs, mst);
    AloneTables(r, b);
    forall q | 0 <= q < 41
      ensures LcdcPage(r, q) == if mst % 4 == 0 && (if b == 7 then q == 38 || q == 39 else q == 40) then q else 41
    {
      AloneLcdc(r, b, q);
    }
    OthersOff(r, b, C);
    OthersOff(r, b, D);
  }

  // ----- Purposes -----

  /** What each setting is recorded as. */
  lemma Purposes(b: Bank, z: nat, ofs: nat, mst: nat)
    requires z < 4 && ofs < 4 && mst < 8
    ensures PurposeOf(b, ControlByte(z, ofs, mst)) ==
            if b <= 1 then [Lcdc, BgA, ObjA, Texture][mst % 4]
            else if b <= 3 then [Lcdc, BgA, Arm7, Texture, if b == 2 then BgB else ObjB, Invalid, Invalid, Invalid][mst]
            else if b == 4 then [Lcdc, BgA, ObjA, TexturePalette, BgPaletteA, Invalid, Invalid, Invalid][mst]
            else if b <= 6 then
              [Lcdc, BgA, ObjA, TexturePalette, if ofs < 2 then BgPaletteA else Invalid, ObjPaletteA, Invalid, Invalid][mst]
            else if b == 7 then [Lcdc, BgB, BgPaletteB, Invalid][mst % 4]
            else [Lcdc, BgB, ObjB, ObjPaletteB][mst % 4]
    ensures forall c: u8 :: c < 128 ==> PurposeOf(b, c) == Off
  {
    ControlBits(z, ofs, mst);
    hide Enabled, Ofs, ControlByte;
  }

  // ----- Several banks -----

  function Or(a: Option<u8>, b: u8): u8 { if a.Some? then a.value else b }

  function Shown(r: Control, b: Bank, p: nat): Option<u8> { PageAt(b, Cnt(r, b), p) }

  /** Of the banks that claim a page, D comes first, then C, B, A, E, F, G, H and I. */
  lemma OverlapOrder(r: Control, p: nat)
    ensures RawPage(r, p, 0)
         == Or(Shown(r, 3, p), Or(Shown(r, 2, p), Or(Shown(r, 1, p), Or(Shown(r, 0, p),
            Or(Shown(r, 4, p), Or(Shown(r, 5, p), Or(Shown(r, 6, p), Or(Shown(r, 7, p), Or(Shown(r, 8, p), 41)))))))))
  {
    hide PageAt;
    RanksBelow(r, p);
    assert RawPage(r, p, 4) == Or(Shown(r, 4, p), RawPage(r, p, 5));
    assert RawPage(r, p, 3) == Or(Shown(r, 0, p), RawPage(r, p, 4));
    assert RawPage(r, p, 2) == Or(Shown(r, 1, p), RawPage(r, p, 3));
    assert RawPage(r, p, 1) == Or(Shown(r, 2, p), RawPage(r, p, 2));
    assert RawPage(r, p, 0) == Or(Shown(r, 3, p), RawPage(r, p, 1));
  }

  lemma RanksBelow(r: Control, p: nat)
    ensures RawPage(r, p, 5)
         == Or(Shown(r, 5, p), Or(Shown(r, 6, p), Or(Shown(r, 7, p), Or(Shown(r, 8, p), 41))))
  {
    hide PageAt;
    assert RawPage(r, p, 9) == 41;
    assert RawPage(r, p, 8) == Or(Shown(r, 8, p), RawPage(r, p, 9));
    assert RawPage(r, p, 7) == Or(Shown(r, 7, p), RawPage(r, p, 8));
    assert RawPage(r, p, 6) == Or(Shown(r, 6, p), RawPage(r, p, 7));
    assert RawPage(r, p, 5) == Or(Shown(r, 5, p), RawPage(r, p, 6));
  }
}
