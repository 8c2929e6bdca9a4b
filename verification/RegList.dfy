/** The register-list printer of the disassembler: runs of set bits become ranges. */
module RegList {
  import opened Types
  import opened Arith

  /** Registre[] */
  function Name(j: nat): (s: string)
    requires j < 16
    ensures 2 <= |s| <= 3
    ensures forall k :: 0 <= k < |s| ==> s[k] != ',' && s[k] != '-'
  {
    if j == 0 then "R0" else if j == 1 then "R1" else if j == 2 then "R2" else if j == 3 then "R3"
    else if j == 4 then "R4" else if j == 5 then "R5" else if j == 6 then "R6" else if j == 7 then "R7"
    else if j == 8 then "R8" else if j == 9 then "R9" else if j == 10 then "R10" else if j == 11 then "R11"
    else if j == 12 then "R12" else if j == 13 then "SP" else if j == 14 then "LR" else "PC"
  }

  /** The decimal digit d. */
  function Digit(d: nat): char
    requires d < 10
  {
    '0' + d as char
  }

  /** Registers 13 to 15 have names, the others are R and their number. */
  lemma NameTells(j: nat)
    requires j < 16
    ensures Name(j) == if j == 13 then "SP" else if j == 14 then "LR" else if j == 15 then "PC"
                       else if j < 10 then "R" + [Digit(j)] else "R1" + [Digit(j - 10)]
  {
  }

  datatype Run = Run(lo: nat, hi: nat)

  type Register = j: nat | j < 16

  // ----- What is to be printed -----

  /** The runs of set bits below position n. */
  function Runs(v: nat, n: nat): (r: seq<Run>)
    ensures forall k :: 0 <= k < |r| ==> r[k].lo <= r[k].hi < n
  {
    if n == 0 then []
    else
      var r := Runs(v, n - 1);
      if !Bit(v, n - 1) then r
      else if r != [] && r[|r| - 1].hi + 1 == n - 1 then r[|r| - 1 := r[|r| - 1].(hi := n - 1)]
      else r + [Run(n - 1, n - 1)]
  }

  /** A register printed by some run. */
  predicate Covered(r: seq<Run>, j: nat) {
    r != [] && (r[|r| - 1].lo <= j <= r[|r| - 1].hi || Covered(r[..|r| - 1], j))
  }

  lemma CoveredAppend(r: seq<Run>, m: Run, j: nat)
    ensures Covered(r + [m], j) <==> Covered(r, j) || m.lo <= j <= m.hi
  {
    assert (r + [m])[..|r|] == r;
  }

  lemma CoveredExtend(r: seq<Run>, n: nat, j: nat)
    requires r != [] && r[|r| - 1].lo <= n && r[|r| - 1].hi + 1 == n
    ensures Covered(r[|r| - 1 := r[|r| - 1].(hi := n)], j) <==> Covered(r, j) || j == n
  {
    var r' := r[|r| - 1 := r[|r| - 1].(hi := n)];
    assert r'[..|r'| - 1] == r[..|r| - 1];
  }

  /** The runs cover exactly the set bits. */
  lemma {:induction false} RunsAreTheBits(v: nat, n: nat, j: nat)
    ensures Covered(Runs(v, n), j) <==> j < n && Bit(v, j)
  {
    hide Bit;
    if n > 0 {
      RunsAreTheBits(v, n - 1, j);
      var r := Runs(v, n - 1);
      if Bit(v, n - 1) {
        if r != [] && r[|r| - 1].hi + 1 == n - 1 {
          CoveredExtend(r, n - 1, j);
        } else {
          CoveredAppend(r, Run(n - 1, n - 1), j);
        }
      }
    }
  }

  /** Runs come in order and never touch, so each is as long as it can be. */
  lemma {:induction false} RunsAreMaximal(v: nat, n: nat)
    ensures forall a, b :: 0 <= a < b < |Runs(v, n)| ==> Runs(v, n)[a].hi + 1 < Runs(v, n)[b].lo
  {
    if n > 0 {
      RunsAreMaximal(v, n - 1);
    }
  }

  // ----- The text -----

  function Item(r: Run): string
    requires r.lo <= r.hi < 16
  {
    if r.lo == r.hi then Name(r.lo) + "," else Name(r.lo) + "-" + Name(r.hi) + ","
  }

  function Text(r: seq<Run>): string
    requires forall k :: 0 <= k < |r| ==> r[k].lo <= r[k].hi < 16
  {
    if r == [] then "" else Text(r[..|r| - 1]) + Item(r[|r| - 1])
  }

  function WithoutLast(s: string): string {
    if s == "" then s else s[..|s| - 1]
  }

  function RegListText(v: nat, nb: nat): string
    requires nb <= 16
  {
    WithoutLast(Text(Runs(v, nb)))
  }

  // ----- The printing loop -----

  /** A range is open: its first register and the dash are printed, the rest is to come. */
  predicate OpenRange(r: seq<Run>, j: nat, lreg: string)
    requires forall k :: 0 <= k < |r| ==> r[k].lo <= r[k].hi < 16
  {
    r != [] && r[|r| - 1].hi + 1 == j && lreg == Text(r[..|r| - 1]) + Name(r[|r| - 1].lo) + "-"
  }

  predicate Closed(r: seq<Run>, j: nat) {
    r == [] || r[|r| - 1].hi + 1 < j
  }

  /** A set bit next to no open range starts a run. */
  lemma StartRun(v: nat, j: nat)
    requires j < 16 && Bit(v, j) && Closed(Runs(v, j), j)
    ensures Text(Runs(v, j + 1)) == Text(Runs(v, j)) + (Name(j) + ",")
    ensures OpenRange(Runs(v, j + 1), j + 1, Text(Runs(v, j)) + (Name(j) + "-"))
  {
    var r, r' := Runs(v, j), Runs(v, j + 1);
    assert r' == r + [Run(j, j)] && r'[..|r'| - 1] == r;
  }

  /** A set bit continues an open range, which may end there. */
  lemma ContinueRun(v: nat, j: nat, lreg: string)
    requires j < 16 && Bit(v, j) && OpenRange(Runs(v, j), j, lreg)
    ensures OpenRange(Runs(v, j + 1), j + 1, lreg)
    ensures Text(Runs(v, j + 1)) == lreg + (Name(j) + ",")
  {
    var r, r' := Runs(v, j), Runs(v, j + 1);
    var last, init := r[|r| - 1], r[..|r| - 1];
    assert r' == r[|r| - 1 := Run(last.lo, j)];
    assert r'[..|r'| - 1] == init;
    assert Text(r') == Text(init) + Item(Run(last.lo, j));
    Regroup(Text(init), Name(last.lo), Name(j));
  }

  lemma Regroup(t: string, a: string, b: string)
    ensures t + (a + "-" + b + ",") == (t + a + "-") + (b + ",")
  {
  }

  /** The loop of the RegList macro. Each register adds at most four characters. */
  method RegList(v: nat, nb: nat) returns (lreg: string)
    requires nb <= 16
    ensures lreg == RegListText(v, nb)
    ensures |lreg| <= 4 * nb
  {
    hide Name, Bit, Item, OpenRange;
    lreg := "";
    var prec := false;
    for j := 0 to nb
      invariant prec ==> j < nb && Bit(v, j) && OpenRange(Runs(v, j), j, lreg)
      invariant !prec ==> lreg == Text(Runs(v, j)) && (j < nb && Bit(v, j) ==> Closed(Runs(v, j), j))
      invariant |lreg| <= 4 * j
    {
      if prec {
        ContinueRun(v, j, lreg);
        if !Bit(v, j + 1) || j == nb - 1 {
          lreg := lreg + (Name(j) + ",");
          prec := false;
        }
      } else {
        if Bit(v, j) {
          StartRun(v, j);
          if Bit(v, j + 1) && j != nb - 1 {
            lreg := lreg + (Name(j) + "-");
            prec := true;
          } else {
            lreg := lreg + (Name(j) + ",");
          }
        }
      }
    }
    if lreg != "" { lreg := lreg[..|lreg| - 1]; }
  }

  // ----- Reading the text back -----

  /** Length of the leading name. */
  function Cut(s: string): (k: nat)
    ensures k <= |s|
  {
    if s == "" || s[0] == ',' || s[0] == '-' then 0 else 1 + Cut(s[1..])
  }

  function Lookup(name: string, from: nat): Option<Register>
    requires from <= 16
    decreases 16 - from
  {
    if from == 16 then None else if Name(from) == name then Some(from) else Lookup(name, from + 1)
  }

  /** Items ended by commas: one register, or two with a dash between. */
  function Parse(s: string): Option<seq<Run>>
    decreases |s|
  {
    if s == "" then Some([])
    else
      var k := Cut(s);
      var a := Lookup(s[..k], 0);
      if k == |s| || a.None? then None
      else if s[k] == ',' then Prepend(Run(a.value, a.value), Parse(s[k + 1..]))
      else ParseRangeEnd(a.value, s[k + 1..])
  }

  /** The part of a range behind its dash. */
  function ParseRangeEnd(lo: Register, t: string): Option<seq<Run>>
    decreases |t|
  {
    var m := Cut(t);
    var b := Lookup(t[..m], 0);
    if m == |t| || t[m] != ',' || b.None? then None
    else Prepend(Run(lo, b.value), Parse(t[m + 1..]))
  }

  function Prepend(r: Run, rest: Option<seq<Run>>): Option<seq<Run>> {
    if rest.None? then None else Some([r] + rest.value)
  }

  /** The text with its last comma restored. */
  function Decode(lreg: string): Option<seq<Run>> {
    if lreg == "" then Some([]) else Parse(lreg + ",")
  }

  lemma {:induction false} CutAfter(name: string, tail: string)
    requires forall k :: 0 <= k < |name| ==> name[k] != ',' && name[k] != '-'
    requires tail != "" && (tail[0] == ',' || tail[0] == '-')
    ensures Cut(name + tail) == |name|
  {
    if name == "" {
      assert name + tail == tail;
    } else {
      assert (name + tail)[1..] == name[1..] + tail;
      CutAfter(name[1..], tail);
    }
  }

  lemma NamesDiffer(i: Register, j: Register)
    requires i != j
    ensures Name(i) != Name(j)
  {
    assert Name(i)[0] != Name(j)[0] || Name(i)[1] != Name(j)[1] || |Name(i)| != |Name(j)|
        || (|Name(i)| == 3 && Name(i)[2] != Name(j)[2]);
  }

  lemma {:induction false} LookupName(j: Register, from: nat)
    requires from <= j
    ensures Lookup(Name(j), from) == Some(j)
    decreases j - from
  {
    if from < j {
      NamesDiffer(from, j);
      LookupName(j, from + 1);
    }
  }

  /** Splitting a name off a text. */
  lemma SplitName(j: Register, tail: string)
    requires tail != "" && (tail[0] == ',' || tail[0] == '-')
    ensures var s := Name(j) + tail;
      (Cut(s) == |Name(j)| < |s| && Lookup(s[..Cut(s)], 0) == Some(j) && s[Cut(s)] == tail[0] && s[Cut(s) + 1..] == tail[1..])
  {
    CutAfter(Name(j), tail);
    LookupName(j, 0);
    assert (Name(j) + tail)[..|Name(j)|] == Name(j);
  }

  lemma ParseStep(s: string, k: nat, j: Register)
    requires k == Cut(s) < |s| && Lookup(s[..k], 0) == Some(j)
    ensures s[k] == ',' ==> Parse(s) == Prepend(Run(j, j), Parse(s[k + 1..]))
    ensures s[k] != ',' ==> Parse(s) == ParseRangeEnd(j, s[k + 1..])
  {
  }

  lemma ParseSingle(j: Register, rest: string)
    ensures Parse(Name(j) + ("," + rest)) == Prepend(Run(j, j), Parse(rest))
  {
    hide *;
    var tail := "," + rest;
    SplitName(j, tail);
    ParseStep(Name(j) + tail, |Name(j)|, j);
    assert tail[1..] == rest;
  }

  lemma ParseDash(i: Register, t: string)
    ensures Parse(Name(i) + ("-" + t)) == ParseRangeEnd(i, t)
  {
    hide *;
    var dash := "-" + t;
    SplitName(i, dash);
    ParseStep(Name(i) + dash, |Name(i)|, i);
    assert dash[1..] == t;
  }

  lemma ParseRange(i: Register, j: Register, rest: string)
    ensures Parse(Name(i) + ("-" + (Name(j) + ("," + rest)))) == Prepend(Run(i, j), Parse(rest))
  {
    ParseDash(i, Name(j) + ("," + rest));
    RangeEnd(i, j, rest);
  }

  lemma RangeEndStep(i: Register, t: string, m: nat, j: Register)
    requires m == Cut(t) < |t| && t[m] == ',' && Lookup(t[..m], 0) == Some(j)
    ensures ParseRangeEnd(i, t) == Prepend(Run(i, j), Parse(t[m + 1..]))
  {
  }

  lemma RangeEnd(i: Register, j: Register, rest: string)
    ensures ParseRangeEnd(i, Name(j) + ("," + rest)) == Prepend(Run(i, j), Parse(rest))
  {
    hide *;
    var tail := "," + rest;
    SplitName(j, tail);
    RangeEndStep(i, Name(j) + tail, |Name(j)|, j);
    assert tail[1..] == rest;
  }

  lemma ParseItem(r: Run, rest: string)
    requires r.lo <= r.hi < 16
    ensures Parse(Item(r) + rest) == Prepend(r, Parse(rest))
  {
    if r.lo == r.hi {
      assert Item(r) + rest == Name(r.lo) + ("," + rest);
      ParseSingle(r.lo, rest);
    } else {
      assert Item(r) + rest == Name(r.lo) + ("-" + (Name(r.hi) + ("," + rest)));
      ParseRange(r.lo, r.hi, rest);
    }
  }

  lemma Assoc(a: string, b: string, c: string)
    ensures (a + b) + c == a + (b + c)
  {
  }

  lemma {:induction false} TextFromFront(r: seq<Run>)
    requires r != [] && forall k :: 0 <= k < |r| ==> r[k].lo <= r[k].hi < 16
    ensures Text(r) == Item(r[0]) + Text(r[1..])
  {
    hide Item;
    var init, last, tail := r[..|r| - 1], r[|r| - 1], r[1..];
    if |r| == 1 {
      assert init == [] && tail == [];
      assert Text(r) == Text(init) + Item(last);
    } else {
      assert init[1..] == tail[..|tail| - 1];
      TextFromFront(init);
      Assoc(Item(r[0]), Text(init[1..]), Item(last));
      assert Text(tail) == Text(init[1..]) + Item(last);
    }
  }

  lemma {:induction false} ParseText(r: seq<Run>)
    requires forall k :: 0 <= k < |r| ==> r[k].lo <= r[k].hi < 16
    ensures Parse(Text(r)) == Some(r)
  {
    if r != [] {
      TextFromFront(r);
      ParseItem(r[0], Text(r[1..]));
      ParseText(r[1..]);
      assert [r[0]] + r[1..] == r;
    }
  }

  /** Reading a printed list back gives exactly the set bits among the first nb. */
  lemma PrintedListDecodes(v: nat, nb: nat, j: nat)
    requires nb <= 16
    ensures Decode(RegListText(v, nb)) == Some(Runs(v, nb))
    ensures Covered(Decode(RegListText(v, nb)).value, j) <==> j < nb && Bit(v, j)
  {
    var r := Runs(v, nb);
    ParseText(r);
    RunsAreTheBits(v, nb, j);
    if r != [] {
      var t := Text(r);
      var item := Item(r[|r| - 1]);
      assert item[|item| - 1] == ',';
      assert t[..|t| - 1] + "," == t;
      assert |t| >= 3;
    }
  }
}
