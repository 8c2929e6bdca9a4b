/** The cache timing model: which accesses the source calls hits, next to a cache without the
    last-set shortcut. */
module CacheModel {
  import opened Types
  import opened Arith

  const WAYS := 4
  const BLOCK := 32
  const NONE := 0xFFFF_FFFF    // m_cacheCache before any access

  /** 8 KB code cache: 2 KB per way, 64 sets. 4 KB data cache: 1 KB per way, 32 sets. */
  type WaySize = n: nat | n == 2048 || n == 1024 witness 2048

  datatype Access = Access(addr: u32, read: bool)

  /** addr & BLOCKMASK, the set it selects, and addr & TAGMASK. */
  function BlockMasked(w: WaySize, addr: u32): (r: nat)
    ensures r < w && r % BLOCK == 0
  {
    addr % w / BLOCK * BLOCK
  }

  function SetOf(w: WaySize, addr: u32): (r: nat)
    ensures r < w / BLOCK
  {
    BlockMasked(w, addr) / BLOCK
  }

  function TagOf(w: WaySize, addr: u32): u32 {
    addr - addr % w
  }

  /** An address is its tag, a multiple of the way size, its block in the way, and the position in
      the block of 32 bytes; the set is the number of the block. */
  lemma AddressParts(w: WaySize, addr: u32, tag: nat, row: nat, at: nat)
    requires row < w / 32 && at < 32
    ensures addr == w * tag + 32 * row + at ==>
              TagOf(w, addr) == w * tag && BlockMasked(w, addr) == 32 * row && SetOf(w, addr) == row
  {
    if addr == w * tag + 32 * row + at {
      Quotient(addr, w, tag, 32 * row + at);
      Quotient(32 * row + at, 32, row, at);
    }
  }

  /** A set holds four tags, oldest first; empty ways hold tag 0. */
  type Queue = q: seq<u32> | |q| == WAYS witness [0, 0, 0, 0]

  type Sets = seq<Queue>

  const EMPTY: Queue := [0, 0, 0, 0]

  /** One set's answer and its new contents: a read miss replaces the oldest tag, a write miss
      leaves the set alone. */
  function Look(q: Queue, tag: u32, read: bool): (bool, Queue) {
    if tag in q then (true, q) else (false, if read then q[1..] + [tag] else q)
  }

  /** The cache without the shortcut. */
  function Plain(w: WaySize, sets: Sets, a: Access): (bool, Sets)
    requires |sets| == w / BLOCK
  {
    var s := SetOf(w, a.addr);
    var (hit, q) := Look(sets[s], TagOf(w, a.addr), a.read);
    (hit, sets[s := q])
  }

  /** The cache as it is: `last` is m_cacheCache, the masked address of the last hit or read
      miss, and any access to that set counts as a hit. */
  datatype Cache = Cache(sets: Sets, last: u32)

  function Fresh(w: WaySize): Cache { Cache(seq(w / BLOCK, i => EMPTY), NONE) }

  predicate Shortcut(w: WaySize, c: Cache, addr: u32) { BlockMasked(w, addr) == c.last }

  function Cached(w: WaySize, c: Cache, a: Access): (bool, Cache)
    requires |c.sets| == w / BLOCK
  {
    if Shortcut(w, c, a.addr) then (true, c)
    else
      var (hit, sets) := Plain(w, c.sets, a);
      (hit, Cache(sets, if hit || a.read then BlockMasked(w, a.addr) else c.last))
  }

  predicate Resident(w: WaySize, c: Cache, addr: u32)
    requires |c.sets| == w / BLOCK
  {
    TagOf(w, addr) in c.sets[SetOf(w, addr)]
  }

  // ----- Whole traces -----

  function RunPlain(w: WaySize, sets: Sets, trace: seq<Access>): (r: (seq<bool>, Sets))
    requires |sets| == w / BLOCK
    ensures |r.0| == |trace| && |r.1| == w / BLOCK
    decreases |trace|
  {
    if trace == [] then ([], sets)
    else
      var (hit, next) := Plain(w, sets, trace[0]);
      var (rest, end) := RunPlain(w, next, trace[1..]);
      ([hit] + rest, end)
  }

  function RunCached(w: WaySize, c: Cache, trace: seq<Access>): (r: (seq<bool>, Cache))
    requires |c.sets| == w / BLOCK
    ensures |r.0| == |trace| && |r.1.sets| == w / BLOCK
    decreases |trace|
  {
    if trace == [] then ([], c)
    else
      var (hit, next) := Cached(w, c, trace[0]);
      var (rest, end) := RunCached(w, next, trace[1..]);
      ([hit] + rest, end)
  }

  /** Whenever a trace takes the shortcut, the address is in its set anyway. */
  predicate Justified(w: WaySize, c: Cache, trace: seq<Access>)
    requires |c.sets| == w / BLOCK
    decreases |trace|
  {
    trace != [] ==>
      && (Shortcut(w, c, trace[0].addr) ==> Resident(w, c, trace[0].addr))
      && Justified(w, Cached(w, c, trace[0]).1, trace[1..])
  }

  /** The shortcut is invisible over a whole trace exactly when it is always justified; then
      the contents agree as well. */
  lemma {:induction false} ShortcutInvisibleIff(w: WaySize, c: Cache, trace: seq<Access>)
    requires |c.sets| == w / BLOCK
    ensures RunCached(w, c, trace).0 == RunPlain(w, c.sets, trace).0 <==> Justified(w, c, trace)
    ensures Justified(w, c, trace) ==> RunCached(w, c, trace).1.sets == RunPlain(w, c.sets, trace).1
    decreases |trace|
  {
    if trace != [] {
      var (h1, c1) := Cached(w, c, trace[0]);
      var (h2, s2) := Plain(w, c.sets, trace[0]);
      if Shortcut(w, c, trace[0].addr) && !Resident(w, c, trace[0].addr) {
        assert RunCached(w, c, trace).0[0] && !RunPlain(w, c.sets, trace).0[0];
      } else {
        assert h1 == h2 && c1.sets == s2;
        ShortcutInvisibleIff(w, c1, trace[1..]);
        HeadTail(h1, RunCached(w, c1, trace[1..]).0, RunPlain(w, s2, trace[1..]).0);
      }
    }
  }

  lemma HeadTail<T>(h: T, a: seq<T>, b: seq<T>)
    ensures [h] + a == [h] + b <==> a == b
  {
    assert ([h] + a)[1..] == a && ([h] + b)[1..] == b;
  }

  /** Two addresses 2 KB apart: the second read misses, but is reported as a hit. */
  lemma ShortcutCanLie()
    ensures var trace := [Access(0x0200_0000, true), Access(0x0200_0800, true)];
      && RunCached(2048, Fresh(2048), trace).0 == [false, true]
      && RunPlain(2048, Fresh(2048).sets, trace).0 == [false, false]
  {
    var a, b := Access(0x0200_0000, true), Access(0x0200_0800, true);
    var c := Fresh(2048);
    var c1 := Cached(2048, c, a).1;
    assert EMPTY[1..] + [0x0200_0000] == [0, 0, 0, 0x0200_0000];
    assert Cached(2048, c, a) == (false, Cache(c.sets[0 := [0, 0, 0, 0x0200_0000]], 0));
    assert Plain(2048, c.sets, a) == (false, c1.sets);
    assert Cached(2048, c1, b).0 && !Plain(2048, c1.sets, b).0;
    assert [a, b][1..] == [b] && [b][1..] == [];
    assert RunCached(2048, c1, [b]).0 == [true];
    assert RunPlain(2048, c1.sets, [b]).0 == [false];
  }

  // ----- A sufficient condition on the trace alone -----

  /** The tag of the access that last set m_cacheCache. */
  function SetterAfter(w: WaySize, c: Cache, setter: u32, a: Access): u32
    requires |c.sets| == w / BLOCK
  {
    if !Shortcut(w, c, a.addr) && (Cached(w, c, a).0 || a.read) then TagOf(w, a.addr) else setter
  }

  /** Every shortcut of the trace is taken by an address with that tag. */
  predicate SameTagShortcuts(w: WaySize, c: Cache, setter: u32, trace: seq<Access>)
    requires |c.sets| == w / BLOCK
    decreases |trace|
  {
    trace != [] ==>
      && (Shortcut(w, c, trace[0].addr) ==> TagOf(w, trace[0].addr) == setter)
      && SameTagShortcuts(w, Cached(w, c, trace[0]).1, SetterAfter(w, c, setter, trace[0]), trace[1..])
  }

  /** The last setter's tag stays in its set until another access takes over. */
  predicate SetterResident(w: WaySize, c: Cache, setter: u32)
    requires |c.sets| == w / BLOCK
  {
    c.last == NONE || (c.last < w && c.last % BLOCK == 0 && setter in c.sets[c.last / BLOCK])
  }

  lemma SetterStaysResident(w: WaySize, c: Cache, setter: u32, a: Access)
    requires |c.sets| == w / BLOCK && SetterResident(w, c, setter)
    ensures SetterResident(w, Cached(w, c, a).1, SetterAfter(w, c, setter, a))
  {
    var s := SetOf(w, a.addr);
    if !Shortcut(w, c, a.addr) {
      var (hit, q) := Look(c.sets[s], TagOf(w, a.addr), a.read);
      assert hit || a.read ==> TagOf(w, a.addr) in q by {
        if !hit && a.read { assert q[3] == TagOf(w, a.addr); }
      }
    }
  }

  /** Shortcuts by the tag that set m_cacheCache are always right, from an empty cache on. */
  lemma {:induction false} SameTagIsJustified(w: WaySize, c: Cache, setter: u32, trace: seq<Access>)
    requires |c.sets| == w / BLOCK && SetterResident(w, c, setter)
    requires SameTagShortcuts(w, c, setter, trace)
    ensures Justified(w, c, trace)
    decreases |trace|
  {
    if trace != [] {
      SetterStaysResident(w, c, setter, trace[0]);
      SameTagIsJustified(w, Cached(w, c, trace[0]).1, SetterAfter(w, c, setter, trace[0]), trace[1..]);
    }
  }

  // ----- What a set holds -----

  /** The tags read misses brought into set s, oldest first. */
  function Allocated(w: WaySize, c: Cache, s: nat, trace: seq<Access>): seq<u32>
    requires |c.sets| == w / BLOCK && s < w / BLOCK
    decreases |trace|
  {
    if trace == [] then []
    else
      var a := trace[0];
      var (hit, next) := Cached(w, c, a);
      (if !hit && a.read && SetOf(w, a.addr) == s then [TagOf(w, a.addr)] else []) + Allocated(w, next, s, trace[1..])
  }

  function LastFour(q: seq<u32>): Queue
    requires |q| >= WAYS
  {
    q[|q| - WAYS..]
  }

  lemma LastFourShift(q: Queue, tag: u32, rest: seq<u32>)
    ensures LastFour(q + ([tag] + rest)) == LastFour((q[1..] + [tag]) + rest)
  {
    assert q + ([tag] + rest) == [q[0]] + ((q[1..] + [tag]) + rest);
  }

  /** A set holds exactly the last four tags allocated in it, counting its old contents. */
  lemma {:induction false} SetHoldsLastAllocated(w: WaySize, c: Cache, s: nat, trace: seq<Access>)
    requires |c.sets| == w / BLOCK && s < w / BLOCK
    ensures RunCached(w, c, trace).1.sets[s] == LastFour(c.sets[s] + Allocated(w, c, s, trace))
    decreases |trace|
  {
    if trace == [] {
      assert c.sets[s] + [] == c.sets[s];
    } else {
      var a := trace[0];
      var (hit, next) := Cached(w, c, a);
      var rest := Allocated(w, next, s, trace[1..]);
      SetHoldsLastAllocated(w, next, s, trace[1..]);
      if !hit && a.read && SetOf(w, a.addr) == s {
        LastFourShift(c.sets[s], TagOf(w, a.addr), rest);
      } else {
        assert next.sets[s] == c.sets[s];
        assert [] + rest == rest;
      }
    }
  }

  /** The k-th access takes the shortcut only if its tag is among the last four allocated in its
      set before it. */
  predicate RecentlyAllocated(w: WaySize, c: Cache, trace: seq<Access>, k: nat)
    requires |c.sets| == w / BLOCK && k < |trace|
  {
    var s := SetOf(w, trace[k].addr);
    Shortcut(w, RunCached(w, c, trace[..k]).1, trace[k].addr) ==>
      TagOf(w, trace[k].addr) in LastFour(c.sets[s] + Allocated(w, c, s, trace[..k]))
  }

  lemma FirstAllocated(w: WaySize, c: Cache, trace: seq<Access>)
    requires |c.sets| == w / BLOCK && trace != []
    ensures RecentlyAllocated(w, c, trace, 0) <==> (Shortcut(w, c, trace[0].addr) ==> Resident(w, c, trace[0].addr))
  {
    assert trace[..0] == [];
    var q := c.sets[SetOf(w, trace[0].addr)];
    assert q + [] == q;
  }

  /** Dropping the first access shifts the condition. */
  lemma LaterAllocated(w: WaySize, c: Cache, trace: seq<Access>, k: nat)
    requires |c.sets| == w / BLOCK && k + 1 < |trace|
    ensures RecentlyAllocated(w, c, trace, k + 1) <==> RecentlyAllocated(w, Cached(w, c, trace[0]).1, trace[1..], k)
  {
    var c1, s, pre := Cached(w, c, trace[0]).1, SetOf(w, trace[k + 1].addr), trace[1..][..k];
    assert trace[..k + 1][1..] == pre && trace[..k + 1][0] == trace[0];
    assert RunCached(w, c, trace[..k + 1]).1 == RunCached(w, c1, pre).1;
    SetHoldsLastAllocated(w, c, s, trace[..k + 1]);
    SetHoldsLastAllocated(w, c1, s, pre);
  }

  lemma {:induction false} JustifiedIff(w: WaySize, c: Cache, trace: seq<Access>)
    requires |c.sets| == w / BLOCK
    ensures Justified(w, c, trace) <==> forall k :: 0 <= k < |trace| ==> RecentlyAllocated(w, c, trace, k)
    decreases |trace|
  {
    if trace != [] {
      var c1 := Cached(w, c, trace[0]).1;
      JustifiedIff(w, c1, trace[1..]);
      FirstAllocated(w, c, trace);
      forall k | 0 <= k < |trace| - 1
        ensures RecentlyAllocated(w, c, trace, k + 1) <==> RecentlyAllocated(w, c1, trace[1..], k)
      {
        LaterAllocated(w, c, trace, k);
      }
      hide RecentlyAllocated, Cached, Shortcut, Resident;
      assert forall k :: 1 <= k < |trace| ==> (RecentlyAllocated(w, c, trace, k) <==> RecentlyAllocated(w, c1, trace[1..], k - 1)) by {
        forall k | 1 <= k < |trace|
          ensures RecentlyAllocated(w, c, trace, k) <==> RecentlyAllocated(w, c1, trace[1..], k - 1)
        {
          assert RecentlyAllocated(w, c, trace, k - 1 + 1) <==> RecentlyAllocated(w, c1, trace[1..], k - 1);
        }
      }
    }
  }

  /** The shortcut is invisible over a trace iff each one taken is by a tag among the last four
      allocated in its set, the old contents included. */
  lemma InvisibleIffRecent(w: WaySize, c: Cache, trace: seq<Access>)
    requires |c.sets| == w / BLOCK
    ensures RunCached(w, c, trace).0 == RunPlain(w, c.sets, trace).0
       <==> forall k :: 0 <= k < |trace| ==> RecentlyAllocated(w, c, trace, k)
  {
    ShortcutInvisibleIff(w, c, trace);
    JustifiedIff(w, c, trace);
  }

  /** Tags are pairwise distinct apart from ways still empty, and no way holds tag 0 beside
      an empty one. */
  predicate Distinct(q: Queue) {
    forall i, j :: 0 <= i < j < WAYS && q[i] == q[j] ==> forall k :: 0 <= k <= j ==> q[k] == 0
  }

  lemma {:induction false} TagsStayDistinct(w: WaySize, c: Cache, trace: seq<Access>)
    requires |c.sets| == w / BLOCK && forall s :: 0 <= s < |c.sets| ==> Distinct(c.sets[s])
    ensures forall s :: 0 <= s < w / BLOCK ==> Distinct(RunCached(w, c, trace).1.sets[s])
    decreases |trace|
  {
    if trace != [] {
      TagsStayDistinct(w, Cached(w, c, trace[0]).1, trace[1..]);
    }
  }

  // ----- The controller as the source keeps it -----

  /** A cache set as stored: the ways in place and the next way to replace. */
  datatype Block = Block(tag: seq<u32>, nextWay: nat) {
    predicate Shaped() { |tag| == WAYS && nextWay < WAYS }

    /** The stored tags from the oldest to the newest. */
    function Order(): Queue
      requires Shaped()
    {
      tag[nextWay..] + tag[..nextWay]
    }
  }

  /** A block after Reset and the allocation of the given tags, one after the other. */
  function Filled(tags: seq<u32>): (b: Block)
    ensures b.Shaped()
  {
    if tags == [] then Block([0, 0, 0, 0], 0)
    else
      var b := Filled(tags[..|tags| - 1]);
      Block(b.tag[b.nextWay := tags[|tags| - 1]], if b.nextWay == 3 then 0 else b.nextWay + 1)
  }

  /** Allocation j sits in way j mod 4 as long as it is among the last four, and ways not reached
      yet hold tag 0. */
  predicate InPlace(t: Queue, tags: seq<u32>) {
    && (forall j :: 0 <= j < |tags| && |tags| - WAYS <= j ==> t[j % WAYS] == tags[j])
    && forall i :: |tags| <= i < WAYS ==> t[i] == 0
  }

  lemma PlaceNext(t: Queue, tags: seq<u32>, v: u32)
    requires InPlace(t, tags)
    ensures InPlace(t[|tags| % WAYS := v], tags + [v])
  {
    var n, u, all := |tags|, t[|tags| % WAYS := v], tags + [v];
    forall j | 0 <= j < |all| && |all| - WAYS <= j ensures u[j % WAYS] == all[j] {
      if j < n { OtherWay(j, n); }
    }
  }

  /** After n allocations the next way is n mod 4 and the tags are in place. */
  lemma {:induction false} WaysInPlace(tags: seq<u32>)
    ensures Filled(tags).nextWay == |tags| % WAYS && InPlace(Filled(tags).tag, tags)
  {
    hide InPlace;
    if tags == [] {
      assert InPlace([0, 0, 0, 0], []) by { NothingPlaced(); }
    } else {
      var init := tags[..|tags| - 1];
      WaysInPlace(init);
      PlaceNext(Filled(init).tag, init, tags[|tags| - 1]);
      assert init + [tags[|tags| - 1]] == tags;
    }
  }

  lemma NothingPlaced()
    ensures InPlace([0, 0, 0, 0], [])
  {
  }

  lemma OtherWay(j: nat, n: nat)
    requires n - WAYS < j < n
    ensures j % WAYS != n % WAYS
  {
  }

  /** Replacing the element at k and starting behind it drops the oldest and appends the newest. */
  lemma ReplaceInner(t: Queue, k: nat, tag: u32)
    requires k < 3
    ensures t[k := tag][k + 1..] + t[k := tag][..k + 1] == (t[k..] + t[..k])[1..] + [tag]
  {
  }

  lemma ReplaceLast(t: Queue, tag: u32)
    ensures t[3 := tag][0..] + t[3 := tag][..0] == (t[3..] + t[..3])[1..] + [tag]
  {
  }

  lemma ReplaceNextWay(b: Block, tag: u32)
    requires b.Shaped()
    ensures var n := Block(b.tag[b.nextWay := tag], if b.nextWay == 3 then 0 else b.nextWay + 1);
            n.Shaped() && n.Order() == b.Order()[1..] + [tag]
  {
    if b.nextWay == 3 {
      ReplaceLast(b.tag, tag);
    } else {
      ReplaceInner(b.tag, b.nextWay, tag);
    }
  }

  lemma SameTags(b: Block, tag: u32)
    requires b.Shaped()
    ensures tag in b.Order() <==> tag in b.tag
  {
    assert b.tag == b.tag[..b.nextWay] + b.tag[b.nextWay..];
  }

  class CacheController {
    const w: WaySize
    const blocks: array<Block>
    var cacheCache: u32
    ghost var history: seq<seq<u32>>    // per set, the tags brought in since Reset

    ghost predicate Valid()
      reads this, blocks
    {
      && blocks.Length == w / BLOCK == |history|
      && forall s :: 0 <= s < blocks.Length ==> blocks[s] == Filled(history[s])
    }

    ghost function Contents(): (r: Cache)
      requires Valid()
      reads this, blocks
      ensures |r.sets| == w / BLOCK
    {
      Cache(seq(blocks.Length, s requires 0 <= s < blocks.Length reads this, blocks requires Valid() => blocks[s].Order()), cacheCache)
    }

    /** Construction and Reset leave all tags zero. */
    constructor (waySize: WaySize)
      ensures Valid() && w == waySize && Contents() == Fresh(w)
      ensures forall s :: 0 <= s < w / BLOCK ==> history[s] == []
    {
      w := waySize;
      blocks := new Block[waySize / BLOCK](i => Block([0, 0, 0, 0], 0));
      cacheCache := NONE;
      history := seq(waySize / BLOCK, i => []);
      new;
      assert Block([0, 0, 0, 0], 0).Order() == EMPTY;
    }

    /** Scan the ways of a set. */
    method FindTag(b: Block, tag: u32) returns (found: bool)
      requires b.Shaped()
      ensures found <==> tag in b.Order()
    {
      SameTags(b, tag);
      var way := 0;
      while way < WAYS
        invariant 0 <= way <= WAYS && tag !in b.tag[..way]
      {
        if tag == b.tag[way] { return true; }
        way := way + 1;
      }
      assert b.tag[..WAYS] == b.tag;
      found := false;
    }

    /** Replace the next way of set s. */
    method Allocate(s: nat, tag: u32)
      requires Valid() && s < blocks.Length
      modifies this`history, blocks
      ensures Valid() && history == old(history)[s := old(history)[s] + [tag]]
      ensures Contents().sets == old(Contents()).sets[s := old(Contents()).sets[s][1..] + [tag]]
    {
      hide Block.Order;
      var b := blocks[s];
      ReplaceNextWay(b, tag);
      blocks[s] := Block(b.tag[b.nextWay := tag], (b.nextWay + 1) % WAYS);
      assert (history[s] + [tag])[..|history[s]|] == history[s];
      history := history[s := history[s] + [tag]];
    }

    /** CachedInternal: scan the ways, and on a read miss replace the next one. */
    method CachedInternal(addr: u32, blockMasked: u32, read: bool) returns (hit: bool)
      requires Valid() && blockMasked == BlockMasked(w, addr)
      modifies this, blocks
      ensures Valid()
      ensures var (h, sets) := Plain(w, old(Contents()).sets, Access(addr, read));
              hit == h && Contents() == Cache(sets, if h || read then blockMasked else old(cacheCache))
      ensures var s := blockMasked / BLOCK;
              history == if hit || !read then old(history) else old(history)[s := old(history)[s] + [TagOf(w, addr)]]
    {
      hide Block.Order;
      var s, tag := blockMasked / BLOCK, TagOf(w, addr);
      ghost var sets := Contents().sets;
      assert sets == sets[s := sets[s]];
      hit := FindTag(blocks[s], tag);
      if hit {
        cacheCache := blockMasked;
      } else if read {
        Allocate(s, tag);
        cacheCache := blockMasked;
      }
    }

    /** Cached */
    method Lookup(addr: u32, read: bool) returns (hit: bool)
      requires Valid()
      modifies this, blocks
      ensures Valid()
      ensures (hit, Contents()) == Cached(w, old(Contents()), Access(addr, read))
      ensures var s := SetOf(w, addr);
              history == if hit || !read then old(history) else old(history)[s := old(history)[s] + [TagOf(w, addr)]]
    {
      var blockMasked := BlockMasked(w, addr);
      if blockMasked == cacheCache { return true; }
      hit := CachedInternal(addr, blockMasked, read);
    }
  }
}
