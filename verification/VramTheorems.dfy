/** What follows from the maps being functions of the control bytes. */
module VramTheorems {
  import opened Types
  import opened VramSpec
  import opened VramTables
  import opened VramMapper

  // ----- History independence -----

  /** The control bytes after a run of bank-control writes (block 7 is WRAMCNT). */
  function AfterWrites(r: Control, writes: seq<(nat, u8)>): Control
    requires forall k :: 0 <= k < |writes| ==> writes[k].0 < 10
  {
    if writes == [] then r
    else
      var (block, value) := writes[|writes| - 1];
      var before := AfterWrites(r, writes[..|writes| - 1]);
      if block == 7 then before else before[block := value]
  }

  /** The position of the last write to a block, or -1. */
  function LastWrite(writes: seq<(nat, u8)>, block: nat): (k: int)
    ensures -1 <= k < |writes|
    ensures k >= 0 ==> writes[k].0 == block
    ensures forall i :: k < i < |writes| ==> writes[i].0 != block
  {
    if writes == [] then -1
    else if writes[|writes| - 1].0 == block then |writes| - 1
    else LastWrite(writes[..|writes| - 1], block)
  }

  lemma {:induction false} LastWriteDecides(r: Control, writes: seq<(nat, u8)>, block: nat)
    requires forall k :: 0 <= k < |writes| ==> writes[k].0 < 10
    requires block < 10 && block != 7
    ensures var k := LastWrite(writes, block);
            AfterWrites(r, writes)[block] == if k < 0 then r[block] else writes[k].1
  {
    if writes != [] && writes[|writes| - 1].0 != block {
      LastWriteDecides(r, writes[..|writes| - 1], block);
    }
  }

  /** Two histories that last wrote the same values to the nine bank blocks give the same
      maps, whatever else they wrote before. */
  lemma HistoryIndependent(r1: Control, w1: seq<(nat, u8)>, r2: Control, w2: seq<(nat, u8)>)
    requires forall k :: 0 <= k < |w1| ==> w1[k].0 < 10
    requires forall k :: 0 <= k < |w2| ==> w2[k].0 < 10
    requires r1[7] == r2[7]
    requires forall b: Bank :: var k1, k2 := LastWrite(w1, BlockOf(b)), LastWrite(w2, BlockOf(b));
               (if k1 < 0 then r1[BlockOf(b)] else w1[k1].1) == (if k2 < 0 then r2[BlockOf(b)] else w2[k2].1)
    ensures AfterWrites(r1, w1) == AfterWrites(r2, w2)
    ensures forall p :: 0 <= p < ARM9_PAGES ==> Arm9Page(AfterWrites(r1, w1), p) == Arm9Page(AfterWrites(r2, w2), p)
  {
    var a, b := AfterWrites(r1, w1), AfterWrites(r2, w2);
    WramBlockUntouched(r1, w1);
    WramBlockUntouched(r2, w2);
    forall i | 0 <= i < 10 ensures a[i] == b[i] {
      if i != 7 {
        var bank: Bank := if i > 7 then i - 1 else i;
        assert BlockOf(bank) == i;
        LastWriteDecides(r1, w1, i);
        LastWriteDecides(r2, w2, i);
      }
    }
  }

  lemma {:induction false} WramBlockUntouched(r: Control, writes: seq<(nat, u8)>)
    requires forall k :: 0 <= k < |writes| ==> writes[k].0 < 10
    ensures AfterWrites(r, writes)[7] == r[7]
  {
    if writes != [] {
      WramBlockUntouched(r, writes[..|writes| - 1]);
    }
  }

  // ----- Priority, periodicity, ownership -----

  /** An ARM9 page shows the best-ranked bank that maps its canonical page, and is unmapped
      exactly when no bank maps it. */
  lemma {:induction false} BestRankWins(r: Control, p: nat, k: nat)
    requires k <= 9
    ensures (forall j :: k <= j < 9 ==> PageAt(Rank(j), Cnt(r, Rank(j)), p).None?) <==> RawPage(r, p, k) == UNMAPPED
    ensures forall j {:trigger Rank(j)} :: k <= j < 9 && PageAt(Rank(j), Cnt(r, Rank(j)), p).Some?
              && (forall i :: k <= i < j ==> PageAt(Rank(i), Cnt(r, Rank(i)), p).None?)
              ==> RawPage(r, p, k) == PageAt(Rank(j), Cnt(r, Rank(j)), p).value
    decreases 9 - k
  {
    if k < 9 {
      BestRankWins(r, p, k + 1);
    }
  }

  /** Each region repeats with its own period. */
  lemma RegionsArePeriodic(r: Control, p: nat, q: nat)
    requires p < ARM9_PAGES && q < ARM9_PAGES && p / 128 == q / 128
    requires var period := [32, 8, 16, 8][p / 128]; p % 128 % period == q % 128 % period
    ensures Arm9Page(r, p) == Arm9Page(r, q)
  {
    assert Canonical(p) == Canonical(q);
  }

  /** No physical page is visible in two places: a page the ARM9 shows as BG/OBJ memory is
      in a bank mapped neither to LCDC nor to the ARM7. */
  lemma PageHasOneOwner(r: Control, p: nat, page: nat)
    requires p < ARM9_PAGES && page < LCDC_PAGES && Arm9Page(r, p) == page
    ensures LcdcPage(r, page) == UNMAPPED
    ensures forall s :: 0 <= s < 2 ==> !(Arm7Upto(r, s, 0) <= page < Arm7Upto(r, s, 0) + 8)
  {
    var b := Winner(r, Canonical(p), 0).value;
    BankPagesDisjoint(b, page);
  }

  lemma BankPagesDisjoint(b: Bank, page: nat)
    requires PageAddr(b) <= page < PageAddr(b) + NumPages(b)
    ensures BankOfPage(page) == b
  {
  }
}
