/** The pointer tables of the VRAM mapper: texture slots, texture palettes and extended
    palettes, which each hold an address inside the LCDC buffer or blank memory. */
module VramTables {
  import opened Types
  import opened VramSpec

  datatype Ptr = Lcd(offset: nat) | Blank(offset: nat)

  const STEP_8KB := 0x2000
  const STEP_16KB := 0x4000

  function Advance(p: Ptr, n: nat): Ptr {
    match p
    case Lcd(o) => Lcd(o + n)
    case Blank(o) => Blank(o + n)
  }

  function Physical(page: nat): Ptr { Lcd(page * STEP_16KB) }

  /** texture slots (4), texture palette slots (6), BG extended palettes of both engines (4
      each) and OBJ extended palettes of both engines (2 each). */
  datatype Tables = Tables(texSlot: seq<Ptr>, texPal: seq<Ptr>, bgExtA: seq<Ptr>, bgExtB: seq<Ptr>,
                           objExtA: seq<Ptr>, objExtB: seq<Ptr>) {
    predicate Shaped() {
      && |texSlot| == 4 && |texPal| == 6 && |bgExtA| == 4 && |bgExtB| == 4 && |objExtA| == 2 && |objExtB| == 2
    }
  }

  /** The tables after MMU_VRAM_unmap_all. */
  function Cleared(): (t: Tables)
    ensures t.Shaped()
  {
    Tables(seq(4, i => Blank(0)), seq(6, i => Blank(0)), seq(4, i => Blank(0)), seq(4, i => Blank(0)),
           seq(2, i => Blank(0)), seq(2, i => Blank(0)))
  }

  /** Four consecutive 8 KB palette slots starting at a page. */
  function FourSlots(page: nat): seq<Ptr> {
    var p := Physical(page);
    [p, Advance(p, STEP_8KB), Advance(p, 2 * STEP_8KB), Advance(p, 3 * STEP_8KB)]
  }

  /** What refreshing one bank does to the pointer tables. The OBJ palettes advance the old
      second pointer instead of the new first one, as the source does. */
  function Refresh(b: Bank, c: u8, t: Tables): (r: Tables)
    requires t.Shaped()
    ensures r.Shaped()
  {
    var mst, ofs, page := Mst(b, c), Ofs(c), PageAddr(b);
    if !Enabled(c) then t
    else if b <= D then
      if mst == 3 then t.(texSlot := t.texSlot[ofs := Physical(page)]) else t
    else if b == E then
      if mst == 3 then
        t.(texPal := [Physical(page), Physical(page + 1), Physical(page + 2), Physical(page + 3)] + t.texPal[4..])
      else if mst == 4 then t.(bgExtA := FourSlots(page))
      else t
    else if b <= G then
      if mst == 3 then t.(texPal := t.texPal[PageSlot(ofs) := Physical(page)])
      else if mst == 4 && ofs < 2 then
        t.(bgExtA := t.bgExtA[2 * ofs := Physical(page)][2 * ofs + 1 := Advance(Physical(page), STEP_8KB)])
      else if mst == 5 then t.(objExtA := [Physical(page), Advance(t.objExtA[1], STEP_8KB)])
      else t
    else if b == H then
      if mst == 2 then t.(bgExtB := FourSlots(page)) else t
    else
      if mst == 3 then t.(objExtB := [Physical(page), Advance(t.objExtB[1], STEP_8KB)]) else t
  }

  /** The refresh order of MMU_VRAMmapControl is the reverse of the rank order. */
  function Rebuilt(r: Control, k: nat): (t: Tables)
    requires k <= 9
    ensures t.Shaped()
    decreases 9 - k
  {
    if k == 9 then Cleared() else Refresh(Rank(k), Cnt(r, Rank(k)), Rebuilt(r, k + 1))
  }

  predicate IsTexture(b: Bank, c: u8, slot: nat) { b <= D && Enabled(c) && Mst(b, c) == 3 && Ofs(c) == slot }

  /** A texture slot belongs to the last of A, B, C, D that claims it. */
  lemma TextureSlotOwner(r: Control, s: nat)
    requires s < 4
    ensures Rebuilt(r, 0).texSlot[s] ==
            if IsTexture(D, Cnt(r, D), s) then Physical(PageAddr(D))
            else if IsTexture(C, Cnt(r, C), s) then Physical(PageAddr(C))
            else if IsTexture(B, Cnt(r, B), s) then Physical(PageAddr(B))
            else if IsTexture(A, Cnt(r, A), s) then Physical(PageAddr(A))
            else Blank(0)
  {
    var t := Rebuilt(r, 4);
    assert t.texSlot == Cleared().texSlot by { TextureSlotsLate(r); }
    assert Rebuilt(r, 3) == Refresh(A, Cnt(r, A), t);
    assert Rebuilt(r, 2) == Refresh(B, Cnt(r, B), Rebuilt(r, 3));
    assert Rebuilt(r, 1) == Refresh(C, Cnt(r, C), Rebuilt(r, 2));
    assert Rebuilt(r, 0) == Refresh(D, Cnt(r, D), Rebuilt(r, 1));
  }

  lemma TextureSlotsLate(r: Control)
    ensures Rebuilt(r, 4).texSlot == Cleared().texSlot
  {
    assert Rebuilt(r, 9) == Cleared();
    assert Rebuilt(r, 8).texSlot == Cleared().texSlot;
    assert Rebuilt(r, 7).texSlot == Cleared().texSlot;
    assert Rebuilt(r, 6).texSlot == Cleared().texSlot;
    assert Rebuilt(r, 5).texSlot == Cleared().texSlot;
  }

  /** The intent of an OBJ extended palette: two consecutive 8 KB halves of one bank. */
  predicate ConsecutiveHalves(o: seq<Ptr>)
    requires |o| == 2
  {
    o[0].Lcd? && o[1] == Advance(o[0], STEP_8KB)
  }

  predicate IsObjPalette(b: Bank, c: u8) {
    Enabled(c) && (if b == I then Mst(b, c) == 3 else (b == F || b == G) && Mst(b, c) == 5)
  }

  /** The second half never follows the first: it stays in blank memory whatever banks are
      mapped, and only the first half reaches the LCDC buffer. */
  lemma ObjPaletteHalves(r: Control)
    ensures var t := Rebuilt(r, 0);
      && t.objExtA[1].Blank? && t.objExtB[1].Blank?
      && !ConsecutiveHalves(t.objExtA) && !ConsecutiveHalves(t.objExtB)
      && t.objExtA[0] == (if IsObjPalette(F, Cnt(r, F)) then Physical(PageAddr(F))
                          else if IsObjPalette(G, Cnt(r, G)) then Physical(PageAddr(G)) else Blank(0))
      && t.objExtB[0] == (if IsObjPalette(I, Cnt(r, I)) then Physical(PageAddr(I)) else Blank(0))
  {
    assert Rebuilt(r, 9) == Cleared();
    assert Rebuilt(r, 8) == Refresh(I, Cnt(r, I), Rebuilt(r, 9));
    assert Rebuilt(r, 7) == Refresh(H, Cnt(r, H), Rebuilt(r, 8));
    assert Rebuilt(r, 6) == Refresh(G, Cnt(r, G), Rebuilt(r, 7));
    assert Rebuilt(r, 5) == Refresh(F, Cnt(r, F), Rebuilt(r, 6));
    ObjPalettesEarly(r);
  }

  lemma ObjPalettesEarly(r: Control)
    ensures Rebuilt(r, 0).objExtA == Rebuilt(r, 5).objExtA && Rebuilt(r, 0).objExtB == Rebuilt(r, 5).objExtB
  {
    assert Rebuilt(r, 4) == Refresh(E, Cnt(r, E), Rebuilt(r, 5));
    assert Rebuilt(r, 3) == Refresh(A, Cnt(r, A), Rebuilt(r, 4));
    assert Rebuilt(r, 2) == Refresh(B, Cnt(r, B), Rebuilt(r, 3));
    assert Rebuilt(r, 1) == Refresh(C, Cnt(r, C), Rebuilt(r, 2));
    assert Rebuilt(r, 0) == Refresh(D, Cnt(r, D), Rebuilt(r, 1));
  }
}
