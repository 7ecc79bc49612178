// The physical page allocator and the page table (champsim/src/vmem.cc). Pages
// are handed out from a free list that is filled again, from the start of memory,
// as soon as it runs empty. The allocator below counts hand-outs, so that its
// invariant holds for ever; which pages the hand-outs stand for is a function of
// their number, injective until the list has been used up.
module VirtualMemory {
  import opened Prelude
  import opened Bits
  import opened Permutations

  const MIB: nat := 0x10_0000
  const ADDRESS_BITS: nat := 64
  const PTE_BITS: nat := 3

  // Sizes as powers of two: a page is 2^pageBits bytes, a page-table page
  // 2^pteBits bytes. order(k) is the arrangement the k-th shuffle produces.
  datatype Config = Config(dramSize: nat, pageBits: nat, pteBits: nat, levels: nat, minorFaultPenalty: nat,
                           order: nat -> seq<nat>)

  function PageSize(cfg: Config): (n: nat)
    ensures n > 0
  {
    Pow2(cfg.pageBits)
  }

  function PageCount(cfg: Config): nat {
    if cfg.dramSize <= MIB then 0 else (cfg.dramSize - MIB) / PageSize(cfg)
  }

  function BasePage(cfg: Config): nat {
    if PageSize(cfg) <= MIB then MIB / PageSize(cfg) else 1
  }

  // What the constructor and the slices it builds assert.
  ghost predicate ValidConfig(cfg: Config) {
    && cfg.dramSize > MIB && PageCount(cfg) > 0
    && 10 < cfg.pteBits <= cfg.pageBits
    && cfg.pageBits + (cfg.pteBits - PTE_BITS) * cfg.levels <= ADDRESS_BITS
    && forall k: nat :: IsPermutation(cfg.order(k), PageCount(cfg))
  }

  // ------------------------------------------------------------ the free list

  function Consecutive(base: nat, n: nat): (r: seq<nat>)
    ensures |r| == n && forall i :: 0 <= i < n ==> r[i] == base + i
  {
    if n == 0 then [] else Consecutive(base, n - 1) + [base + n - 1]
  }

  function Arranged(pages: seq<nat>, order: seq<nat>): (r: seq<nat>)
    requires |order| == |pages| && forall i :: 0 <= i < |order| ==> order[i] < |pages|
    ensures |r| == |pages| && forall i :: 0 <= i < |r| ==> r[i] == pages[order[i]]
  {
    seq(|pages|, i requires 0 <= i < |pages| => pages[order[i]])
  }

  // The list after it was filled for the k-th time.
  ghost function FreeListAt(cfg: Config, k: nat): (r: seq<nat>)
    requires ValidConfig(cfg)
    ensures |r| == PageCount(cfg)
  {
    assert IsPermutation(cfg.order(k), PageCount(cfg));
    Arranged(Consecutive(BasePage(cfg), PageCount(cfg)), cfg.order(k))
  }

  // The page of hand-out g.
  ghost function PageAt(cfg: Config, g: nat): nat
    requires ValidConfig(cfg)
  {
    DivMod(g, PageCount(cfg));
    FreeListAt(cfg, g / PageCount(cfg))[g % PageCount(cfg)]
  }

  lemma {:induction false} PageAtIs(cfg: Config, k: nat, i: nat)
    requires ValidConfig(cfg) && i < PageCount(cfg)
    ensures PageAt(cfg, k * PageCount(cfg) + i) == BasePage(cfg) + cfg.order(k)[i] == FreeListAt(cfg, k)[i]
  {
    DivUnique(k * PageCount(cfg) + i, PageCount(cfg), k, i);
    assert IsPermutation(cfg.order(k), PageCount(cfg));
  }

  // Hand-outs of one filling of the list are distinct pages.
  lemma {:induction false} SameFillingDistinct(cfg: Config, g: nat, h: nat)
    requires ValidConfig(cfg) && g < h && g / PageCount(cfg) == h / PageCount(cfg)
    ensures PageAt(cfg, g) != PageAt(cfg, h)
  {
    var n := PageCount(cfg);
    DivMod(g, n);
    DivMod(h, n);
    assert IsPermutation(cfg.order(g / n), n);
  }

  // No page is handed out twice before the list was used up, and once it was, one is.
  lemma {:induction false} DistinctUntilRefilled(cfg: Config, grants: nat)
    requires ValidConfig(cfg)
    ensures (forall g: nat, h: nat :: g < h < grants ==> PageAt(cfg, g) != PageAt(cfg, h)) <==> grants <= PageCount(cfg)
  {
    var n := PageCount(cfg);
    if grants <= n {
      forall g: nat, h: nat | g < h < grants ensures PageAt(cfg, g) != PageAt(cfg, h) {
        DivUnique(g, n, 0, g);
        DivUnique(h, n, 0, h);
        SameFillingDistinct(cfg, g, h);
      }
    } else {
      PageAtIs(cfg, 1, 0);
      assert IsPermutation(cfg.order(0), n) && IsPermutation(cfg.order(1), n);
      Onto(cfg.order(0), n, cfg.order(1)[0]);
      var i :| 0 <= i < n && cfg.order(0)[i] == cfg.order(1)[0];
      PageAtIs(cfg, 0, i);
      assert PageAt(cfg, i) == PageAt(cfg, n) && i < n < grants;
    }
  }

  // Every page handed out lies in the memory, exactly when its end does not
  // pass the size of the memory: the reserved first mebibyte makes room for
  // the rounding unless a page is larger than it.
  lemma {:induction false} PagesFitMemory(cfg: Config, g: nat)
    requires ValidConfig(cfg)
    ensures BasePage(cfg) <= PageAt(cfg, g) < BasePage(cfg) + PageCount(cfg)
    ensures (BasePage(cfg) + PageCount(cfg)) * PageSize(cfg) <= cfg.dramSize
       <==> PageSize(cfg) <= MIB || cfg.dramSize % PageSize(cfg) < MIB
  {
    var n, size := PageCount(cfg), PageSize(cfg);
    DivMod(g, n);
    assert IsPermutation(cfg.order(g / n), n);
    if size <= MIB { FitsBelow(cfg.dramSize, MIB, size, n); } else { FitsAbove(cfg.dramSize, MIB, size, n); }
  }

  lemma {:induction false} FitsBelow(dram: nat, reserved: nat, size: nat, n: nat)
    requires 0 < size && reserved < dram && n == (dram - reserved) / size
    ensures (reserved / size + n) * size <= dram
  {
    DivMod(dram - reserved, size);
    DivMod(reserved, size);
    assert (reserved / size + n) * size == (reserved / size) * size + n * size;
  }

  lemma {:induction false} FitsAbove(dram: nat, reserved: nat, size: nat, n: nat)
    requires 0 < reserved < size && reserved < dram && n == (dram - reserved) / size > 0
    ensures (1 + n) * size <= dram <==> dram % size < reserved
  {
    var q, r := dram / size, dram % size;
    DivMod(dram, size);
    assert (1 + n) * size == size + n * size;
    if r >= reserved {
      DivUnique(dram - reserved, size, q, r - reserved);
    } else {
      assert q == 0 ==> dram == r;
      assert (q - 1) * size == q * size - size;
      DivUnique(dram - reserved, size, q - 1, r + size - reserved);
    }
  }

  // ------------------------------------------------------------ the allocator

  datatype Entry = Entry(cpu: nat, level: nat, upper: nat)
  datatype Frame = Frame(grant: nat, slot: nat)

  // The translations and the page table with hand-out numbers for pages; active
  // is the hand-out of the page-table page being filled, next its first free slot.
  datatype Alloc = Alloc(grants: nat, data: map<(nat, nat), nat>, frames: map<Entry, Frame>, active: nat, next: nat)

  const Empty: Alloc := Alloc(0, map[], map[], 0, 0)

  datatype Request = Data(cpu: nat, vpage: nat) | Table(cpu: nat, vpage: nat, level: nat)

  predicate Accepted(cfg: Config, r: Request) {
    r.Table? ==> 1 <= r.level <= cfg.levels
  }

  function EntryBits(cfg: Config): nat
    requires cfg.pteBits > PTE_BITS
  {
    cfg.pteBits - PTE_BITS
  }

  function Shamt(cfg: Config, level: nat): nat
    requires cfg.pteBits > PTE_BITS && level >= 1
  {
    cfg.pageBits + EntryBits(cfg) * (level - 1)
  }

  function Upper(cfg: Config, vpage: nat, level: nat): nat
    requires cfg.pteBits > PTE_BITS && level >= 1
  {
    Shr(Join(0, cfg.pageBits, vpage), Shamt(cfg, level))
  }

  function GetOffset(cfg: Config, vpage: nat, level: nat): nat
    requires cfg.pteBits > PTE_BITS && level >= 1
  {
    Low(Upper(cfg, vpage, level), EntryBits(cfg))
  }

  function EntryOf(cfg: Config, r: Request): Entry
    requires cfg.pteBits > PTE_BITS && r.Table? && Accepted(cfg, r)
  {
    Entry(r.cpu, r.level, Upper(cfg, r.vpage, r.level))
  }

  function SlotsPerPage(cfg: Config): (n: nat)
    requires cfg.pteBits <= cfg.pageBits
    ensures n > 0
  {
    Pow2(cfg.pageBits - cfg.pteBits)
  }

  function StepData(a: Alloc, key: (nat, nat)): Alloc {
    if key in a.data then a else a.(data := a.data[key := a.grants], grants := a.grants + 1)
  }

  function OpenPage(a: Alloc): Alloc {
    if a.next == 0 then a.(active := a.grants, grants := a.grants + 1) else a
  }

  // next_pte_page++, which wraps around at the end of a page.
  function After(cfg: Config, slot: nat): (r: nat)
    requires cfg.pteBits <= cfg.pageBits
    ensures r < SlotsPerPage(cfg)
    ensures slot < SlotsPerPage(cfg) ==> r == if slot + 1 == SlotsPerPage(cfg) then 0 else slot + 1
  {
    var width := cfg.pageBits - cfg.pteBits;
    LowInRange(slot + 1, width);
    if slot + 1 < SlotsPerPage(cfg) then LowOfSmall(slot + 1, width); Low(slot + 1, width)
    else LowOfPow2(width); Low(slot + 1, width)
  }

  lemma {:induction false} LowOfPow2(n: nat)
    ensures Low(Pow2(n), n) == 0
  {
    if n > 0 { LowOfPow2(n - 1); }
  }

  function StepTable(cfg: Config, a: Alloc, e: Entry): Alloc
    requires cfg.pteBits <= cfg.pageBits
  {
    var b := OpenPage(a);
    if e in b.frames then b
    else b.(frames := b.frames[e := Frame(b.active, b.next)], next := After(cfg, b.next))
  }

  ghost function Step(cfg: Config, a: Alloc, r: Request): Alloc
    requires ValidConfig(cfg) && Accepted(cfg, r)
  {
    if r.Data? then StepData(a, (r.cpu, r.vpage)) else StepTable(cfg, a, EntryOf(cfg, r))
  }

  ghost function Run(cfg: Config, a: Alloc, rs: seq<Request>): Alloc
    requires ValidConfig(cfg) && forall r :: r in rs ==> Accepted(cfg, r)
    decreases |rs|
  {
    if rs == [] then a else Run(cfg, Step(cfg, a, rs[0]), rs[1..])
  }

  // Hand-outs are owned: by one translation, or by the page table, where each
  // slot belongs to one entry.
  ghost predicate Owned(cfg: Config, a: Alloc)
    requires cfg.pteBits <= cfg.pageBits
  {
    && (forall k <- a.data :: a.data[k] < a.grants)
    && (forall k <- a.data, l <- a.data :: k != l ==> a.data[k] != a.data[l])
    && (forall e <- a.frames :: a.frames[e].grant < a.grants && a.frames[e].slot < SlotsPerPage(cfg))
    && (forall e <- a.frames, f <- a.frames :: e != f ==> a.frames[e] != a.frames[f])
    && (forall k <- a.data, e <- a.frames :: a.data[k] != a.frames[e].grant)
    && a.next < SlotsPerPage(cfg)
    && (a.next != 0 ==> a.active < a.grants)
    && (a.next != 0 ==> forall k <- a.data :: a.data[k] != a.active)
    && (a.next != 0 ==> forall e <- a.frames :: a.frames[e].grant == a.active ==> a.frames[e].slot < a.next)
  }

  lemma {:induction false} OpenPageOwned(cfg: Config, a: Alloc)
    requires cfg.pteBits <= cfg.pageBits && Owned(cfg, a)
    ensures var b := OpenPage(a);
            && Owned(cfg, b) && b.active < b.grants
            && (forall k <- b.data :: b.data[k] != b.active)
            && (forall e <- b.frames :: b.frames[e].grant == b.active ==> b.frames[e].slot < b.next)
  {
  }

  lemma {:induction false} StepTableOwned(cfg: Config, a: Alloc, e: Entry)
    requires cfg.pteBits <= cfg.pageBits && Owned(cfg, a)
    ensures Owned(cfg, StepTable(cfg, a, e))
  {
    OpenPageOwned(cfg, a);
    var b := OpenPage(a);
    if e !in b.frames { NewFrameOwned(cfg, b, e); }
  }

  lemma {:induction false} NewFrameOwned(cfg: Config, b: Alloc, e: Entry)
    requires cfg.pteBits <= cfg.pageBits && Owned(cfg, b) && b.active < b.grants && e !in b.frames
    requires forall k <- b.data :: b.data[k] != b.active
    requires forall f <- b.frames :: b.frames[f].grant == b.active ==> b.frames[f].slot < b.next
    ensures Owned(cfg, b.(frames := b.frames[e := Frame(b.active, b.next)], next := After(cfg, b.next)))
  {
    var c := b.(frames := b.frames[e := Frame(b.active, b.next)], next := After(cfg, b.next));
    forall f <- c.frames, g <- c.frames | f != g ensures c.frames[f] != c.frames[g] {
    }
  }

  lemma {:induction false} RunOwned(cfg: Config, a: Alloc, rs: seq<Request>)
    requires ValidConfig(cfg) && (forall r :: r in rs ==> Accepted(cfg, r)) && Owned(cfg, a)
    ensures Owned(cfg, Run(cfg, a, rs))
    decreases |rs|
  {
    if rs != [] {
      if rs[0].Table? { StepTableOwned(cfg, a, EntryOf(cfg, rs[0])); }
      RunOwned(cfg, Step(cfg, a, rs[0]), rs[1..]);
    }
  }

  // -------------------------------------------------------------- the answers

  function FrameAddress(cfg: Config, page: nat, slot: nat): nat
    requires cfg.pteBits <= cfg.pageBits
  {
    Join(0, cfg.pteBits, Join(slot, cfg.pageBits - cfg.pteBits, page))
  }

  // The entry's bytes: bits PTE_BITS up to pteBits of the frame's address are
  // replaced by the offset.
  function PteAddress(cfg: Config, frame: nat, offset: nat): nat
    requires PTE_BITS < cfg.pteBits
  {
    Join(frame, PTE_BITS, Join(offset, EntryBits(cfg), Shr(frame, cfg.pteBits)))
  }

  ghost function DataPage(cfg: Config, a: Alloc, key: (nat, nat)): nat
    requires ValidConfig(cfg) && key in a.data
  {
    PageAt(cfg, a.data[key])
  }

  ghost function EntryAddress(cfg: Config, a: Alloc, e: Entry): nat
    requires ValidConfig(cfg) && e in a.frames
  {
    FrameAddress(cfg, PageAt(cfg, a.frames[e].grant), a.frames[e].slot)
  }

  // What va_to_pa and get_pte_pa return, with the penalty.
  ghost function Answer(cfg: Config, a: Alloc, r: Request): (nat, nat)
    requires ValidConfig(cfg) && Accepted(cfg, r)
  {
    var b := Step(cfg, a, r);
    if r.Data? then
      (DataPage(cfg, b, (r.cpu, r.vpage)), if (r.cpu, r.vpage) in a.data then 0 else cfg.minorFaultPenalty)
    else
      var e := EntryOf(cfg, r);
      (PteAddress(cfg, EntryAddress(cfg, b, e), GetOffset(cfg, r.vpage, r.level)),
       if e in a.frames then 0 else cfg.minorFaultPenalty)
  }

  // A page-table address names its page, its slot and its offset.
  lemma {:induction false} PteAddressFields(cfg: Config, page: nat, slot: nat, offset: nat)
    requires ValidConfig(cfg) && slot < SlotsPerPage(cfg)
    ensures var a := PteAddress(cfg, FrameAddress(cfg, page, slot), offset);
            && Shr(a, cfg.pageBits) == page
            && Low(Shr(a, cfg.pteBits), cfg.pageBits - cfg.pteBits) == slot
            && Low(Shr(a, PTE_BITS), EntryBits(cfg)) == Low(offset, EntryBits(cfg))
            && Low(a, PTE_BITS) == 0
  {
    var within := cfg.pageBits - cfg.pteBits;
    var numbered := Join(slot, within, page);
    var frame := FrameAddress(cfg, page, slot);
    JoinSplit(slot, within, page);
    JoinSplit(0, cfg.pteBits, numbered);
    LowOfSmall(slot, within);
    var middle := Join(offset, EntryBits(cfg), Shr(frame, cfg.pteBits));
    JoinSplit(offset, EntryBits(cfg), Shr(frame, cfg.pteBits));
    JoinSplit(frame, PTE_BITS, middle);
    var a := Join(frame, PTE_BITS, middle);
    ShrShr(a, PTE_BITS, EntryBits(cfg));
    ShrShr(a, cfg.pteBits, within);
    LowZero(cfg, numbered);
  }

  lemma {:induction false} LowZero(cfg: Config, numbered: nat)
    requires cfg.pteBits > PTE_BITS
    ensures Low(Join(0, cfg.pteBits, numbered), PTE_BITS) == 0
  {
    assert Join(0, cfg.pteBits, numbered) == 8 * Join(0, cfg.pteBits - 3, numbered) by {
      assert Join(0, cfg.pteBits, numbered) == 2 * Join(0, cfg.pteBits - 1, numbered);
      assert Join(0, cfg.pteBits - 1, numbered) == 2 * Join(0, cfg.pteBits - 2, numbered);
    }
    var y := Join(0, cfg.pteBits - 3, numbered);
    assert Low(8 * y, 3) == Low(4 * y, 2) * 2;
    assert Low(4 * y, 2) == Low(2 * y, 1) * 2;
  }

  // ---------------------------------------------------------- main properties

  // Until the free list was used up: distinct virtual pages have distinct pages,
  // none of which holds part of the page table, and two page-table walks reach
  // the same entry only for the same processor, level and address above it.
  lemma {:induction false} NothingIsShared(cfg: Config, rs: seq<Request>)
    requires ValidConfig(cfg) && forall r :: r in rs ==> Accepted(cfg, r)
    ensures var a := Run(cfg, Empty, rs);
            a.grants <= PageCount(cfg) ==>
              && (forall k <- a.data, l <- a.data :: k != l ==> DataPage(cfg, a, k) != DataPage(cfg, a, l))
              && (forall k <- a.data, e <- a.frames, offset: nat ::
                    DataPage(cfg, a, k) != Shr(PteAddress(cfg, EntryAddress(cfg, a, e), offset), cfg.pageBits))
              && (forall e <- a.frames, f <- a.frames, x: nat, y: nat :: e != f ==>
                    PteAddress(cfg, EntryAddress(cfg, a, e), x) != PteAddress(cfg, EntryAddress(cfg, a, f), y))
  {
    var a := Run(cfg, Empty, rs);
    RunOwned(cfg, Empty, rs);
    if a.grants <= PageCount(cfg) {
      DistinctUntilRefilled(cfg, a.grants);
      forall g: nat, h: nat | g < a.grants && h < a.grants && PageAt(cfg, g) == PageAt(cfg, h) ensures g == h {
        if g < h { } else if h < g { }
      }
      forall k <- a.data, e <- a.frames, offset: nat
        ensures DataPage(cfg, a, k) != Shr(PteAddress(cfg, EntryAddress(cfg, a, e), offset), cfg.pageBits)
      {
        PteAddressFields(cfg, PageAt(cfg, a.frames[e].grant), a.frames[e].slot, offset);
      }
      forall e <- a.frames, f <- a.frames, x: nat, y: nat | e != f
        ensures PteAddress(cfg, EntryAddress(cfg, a, e), x) != PteAddress(cfg, EntryAddress(cfg, a, f), y)
      {
        PteAddressFields(cfg, PageAt(cfg, a.frames[e].grant), a.frames[e].slot, x);
        PteAddressFields(cfg, PageAt(cfg, a.frames[f].grant), a.frames[f].slot, y);
      }
    }
  }

  ghost predicate Extends(a: Alloc, b: Alloc) {
    && (forall k <- a.data :: k in b.data && b.data[k] == a.data[k])
    && (forall e <- a.frames :: e in b.frames && b.frames[e] == a.frames[e])
  }

  lemma {:induction false} RunExtends(cfg: Config, a: Alloc, rs: seq<Request>)
    requires ValidConfig(cfg) && forall r :: r in rs ==> Accepted(cfg, r)
    ensures Extends(a, Run(cfg, a, rs))
    decreases |rs|
  {
    if rs != [] { RunExtends(cfg, Step(cfg, a, rs[0]), rs[1..]); }
  }

  // A request asked again gets the first answer, whatever happened in between
  // and even after the list was filled again, and no penalty.
  lemma {:induction false} AnswersRepeat(cfg: Config, a: Alloc, r: Request, rs: seq<Request>)
    requires ValidConfig(cfg) && Accepted(cfg, r) && forall q :: q in rs ==> Accepted(cfg, q)
    ensures Answer(cfg, Run(cfg, Step(cfg, a, r), rs), r) == (Answer(cfg, a, r).0, 0)
  {
    RunExtends(cfg, Step(cfg, a, r), rs);
  }

  // A lookup of a known page takes nothing from the list; a walk takes a page
  // exactly when no slot is open, even of an entry that is already there.
  lemma {:induction false} WhatALookupTakes(cfg: Config, a: Alloc, r: Request)
    requires ValidConfig(cfg) && Accepted(cfg, r)
    ensures Step(cfg, a, r).grants == a.grants <==>
            if r.Data? then (r.cpu, r.vpage) in a.data else a.next != 0
    ensures a.grants <= Step(cfg, a, r).grants <= a.grants + 1
  {
  }

  // So with page-table pages as large as pages, the same walk made over and over
  // uses the list up.
  lemma {:induction false} WalksUseUpTheList(cfg: Config, a: Alloc, rs: seq<Request>)
    requires ValidConfig(cfg) && cfg.pteBits == cfg.pageBits && a.next == 0
    requires forall r :: r in rs ==> r.Table? && Accepted(cfg, r)
    ensures Run(cfg, a, rs).grants == a.grants + |rs|
    decreases |rs|
  {
    if rs != [] {
      assert SlotsPerPage(cfg) == 1;
      WalksUseUpTheList(cfg, Step(cfg, a, rs[0]), rs[1..]);
    }
  }

  // -------------------------------------------------- what requests get to share

  // A virtual page at a level: the pages below one entry are those that agree on
  // what is left of their number without the bits of the levels below.
  function Region(cfg: Config, vpage: nat, level: nat): nat
    requires cfg.pteBits > PTE_BITS && level >= 1
  {
    Quotient(vpage, BitsBelow(cfg, level))
  }

  // How many bits of a page number the levels below take.
  function BitsBelow(cfg: Config, level: nat): nat
    requires cfg.pteBits > PTE_BITS && level >= 1
  {
    (cfg.pteBits - PTE_BITS) * (level - 1)
  }

  lemma {:induction false} KeyIsRegion(cfg: Config, vpage: nat, level: nat)
    requires cfg.pteBits > PTE_BITS && level >= 1
    ensures Upper(cfg, vpage, level) == Region(cfg, vpage, level)
    ensures GetOffset(cfg, vpage, level) == Remainder(Region(cfg, vpage, level), cfg.pteBits - PTE_BITS)
  {
    var below := BitsBelow(cfg, level);
    JoinSplit(0, cfg.pageBits, vpage);
    ShrShr(Join(0, cfg.pageBits, vpage), cfg.pageBits, below);
    ShrDivides(vpage, below);
    ShrDivides(Upper(cfg, vpage, level), EntryBits(cfg));
  }

  ghost predicate Known(cfg: Config, a: Alloc, r: Request)
    requires ValidConfig(cfg) && Accepted(cfg, r)
  {
    if r.Data? then (r.cpu, r.vpage) in a.data else EntryOf(cfg, r) in a.frames
  }

  // Whatever was requested is known from then on.
  lemma {:induction false} RequestedKnown(cfg: Config, a: Alloc, rs: seq<Request>, r: Request)
    requires ValidConfig(cfg) && (forall q :: q in rs ==> Accepted(cfg, q)) && r in rs
    ensures Known(cfg, Run(cfg, a, rs), r)
    decreases |rs|
  {
    if rs[0] == r {
      RunExtends(cfg, Step(cfg, a, r), rs[1..]);
    } else {
      RequestedKnown(cfg, Step(cfg, a, rs[0]), rs[1..], r);
    }
  }

  // The page-table slot that a walk which was made has.
  ghost function SlotOf(cfg: Config, a: Alloc, r: Request): Frame
    requires ValidConfig(cfg) && r.Table? && Accepted(cfg, r) && Known(cfg, a, r)
  {
    a.frames[EntryOf(cfg, r)]
  }

  // Two walks have one slot exactly when they are of one processor, one level and
  // one region, however often the list was filled.
  lemma {:induction false} WalksShareSlots(cfg: Config, rs: seq<Request>, x: Request, y: Request)
    requires ValidConfig(cfg) && (forall r :: r in rs ==> Accepted(cfg, r)) && x in rs && y in rs && x.Table? && y.Table?
    ensures var a := Run(cfg, Empty, rs);
            && Known(cfg, a, x) && Known(cfg, a, y)
            && (SlotOf(cfg, a, x) == SlotOf(cfg, a, y) <==>
                  x.cpu == y.cpu && x.level == y.level && Region(cfg, x.vpage, x.level) == Region(cfg, y.vpage, y.level))
  {
    RequestedKnown(cfg, Empty, rs, x);
    RequestedKnown(cfg, Empty, rs, y);
    RunOwned(cfg, Empty, rs);
    KeyIsRegion(cfg, x.vpage, x.level);
    KeyIsRegion(cfg, y.vpage, y.level);
  }

  // The answer to a walk points at the entry of its region within its slot.
  lemma {:induction false} AnswerPointsAtRegion(cfg: Config, rs: seq<Request>, r: Request)
    requires ValidConfig(cfg) && (forall q :: q in rs ==> Accepted(cfg, q)) && r.Table? && Accepted(cfg, r)
    ensures Remainder(Quotient(Answer(cfg, Run(cfg, Empty, rs), r).0, PTE_BITS), cfg.pteBits - PTE_BITS)
         == Remainder(Region(cfg, r.vpage, r.level), cfg.pteBits - PTE_BITS)
  {
    var a := Run(cfg, Empty, rs);
    var e, b := EntryOf(cfg, r), Step(cfg, a, r);
    var offset := GetOffset(cfg, r.vpage, r.level);
    RunOwned(cfg, Empty, rs);
    StepTableOwned(cfg, a, e);
    KeyIsRegion(cfg, r.vpage, r.level);
    PteAddressFields(cfg, PageAt(cfg, b.frames[e].grant), b.frames[e].slot, offset);
    var answer := Answer(cfg, a, r).0;
    LowInRange(Upper(cfg, r.vpage, r.level), EntryBits(cfg));
    LowOfSmall(offset, EntryBits(cfg));
    ShrDivides(answer, PTE_BITS);
    ShrDivides(Shr(answer, PTE_BITS), EntryBits(cfg));
  }

  // Before the list is filled again: two pages that were looked up are the same
  // exactly for one processor and virtual page; two walks lead to the same address
  // exactly for one processor, level and region; and no walk leads into a page
  // that was handed out for data.
  lemma {:induction false} RequestsShareExactly(cfg: Config, rs: seq<Request>, x: Request, y: Request)
    requires ValidConfig(cfg) && (forall r :: r in rs ==> Accepted(cfg, r)) && x in rs && y in rs
    requires Run(cfg, Empty, rs).grants <= PageCount(cfg)
    ensures var a := Run(cfg, Empty, rs);
            var (p, q) := (Answer(cfg, a, x).0, Answer(cfg, a, y).0);
            && (x.Data? && y.Data? ==> (p == q <==> x == y))
            && (x.Table? && y.Table? ==>
                  (p == q <==>
                     x.cpu == y.cpu && x.level == y.level && Region(cfg, x.vpage, x.level) == Region(cfg, y.vpage, y.level)))
            && (x.Data? && y.Table? ==> p != Quotient(q, cfg.pageBits))
  {
    var a := Run(cfg, Empty, rs);
    RequestedKnown(cfg, Empty, rs, x);
    RequestedKnown(cfg, Empty, rs, y);
    NothingIsShared(cfg, rs);
    AnswerOfKnown(cfg, a, x);
    AnswerOfKnown(cfg, a, y);
    if x.Table? { KeyIsRegion(cfg, x.vpage, x.level); }
    if y.Table? {
      KeyIsRegion(cfg, y.vpage, y.level);
      ShrDivides(Answer(cfg, a, y).0, cfg.pageBits);
    }
  }

  // Asking again changes no entry.
  lemma {:induction false} AnswerOfKnown(cfg: Config, a: Alloc, r: Request)
    requires ValidConfig(cfg) && Accepted(cfg, r) && Known(cfg, a, r)
    ensures r.Data? ==> Answer(cfg, a, r).0 == DataPage(cfg, a, (r.cpu, r.vpage))
    ensures r.Table? ==>
              Answer(cfg, a, r).0 == PteAddress(cfg, EntryAddress(cfg, a, EntryOf(cfg, r)), GetOffset(cfg, r.vpage, r.level))
  {
  }

  // Two requests for one page, or for one entry of the page table.
  predicate SameRequest(cfg: Config, x: Request, y: Request)
    requires cfg.pteBits > PTE_BITS && Accepted(cfg, x) && Accepted(cfg, y)
  {
    if x.Data? then y.Data? && x.cpu == y.cpu && x.vpage == y.vpage
    else y.Table? && x.cpu == y.cpu && x.level == y.level && Region(cfg, x.vpage, x.level) == Region(cfg, y.vpage, y.level)
  }

  lemma {:induction false} SameRequestKnown(cfg: Config, a: Alloc, x: Request, y: Request)
    requires ValidConfig(cfg) && Accepted(cfg, x) && Accepted(cfg, y)
    ensures SameRequest(cfg, x, y) ==> (Known(cfg, a, x) <==> Known(cfg, a, y))
    ensures Known(cfg, Step(cfg, a, x), y) <==> Known(cfg, a, y) || SameRequest(cfg, x, y)
  {
    if x.Table? { KeyIsRegion(cfg, x.vpage, x.level); }
    if y.Table? { KeyIsRegion(cfg, y.vpage, y.level); }
  }

  lemma {:induction false} KnownWasRequested(cfg: Config, a: Alloc, rs: seq<Request>, r: Request)
    requires ValidConfig(cfg) && Accepted(cfg, r) && forall q :: q in rs ==> Accepted(cfg, q)
    ensures Known(cfg, Run(cfg, a, rs), r) <==> Known(cfg, a, r) || exists q :: q in rs && SameRequest(cfg, q, r)
    decreases |rs|
  {
    hide Step, Known, SameRequest;
    if rs != [] {
      KnownWasRequested(cfg, Step(cfg, a, rs[0]), rs[1..], r);
      SameRequestKnown(cfg, a, rs[0], r);
      assert rs == [rs[0]] + rs[1..];
      assert forall q :: q in rs <==> q == rs[0] || q in rs[1..];
    }
  }

  // A request is a fault, and pays the penalty, exactly when none before it was for
  // the same page or entry.
  lemma {:induction false} FirstRequestFaults(cfg: Config, rs: seq<Request>, r: Request)
    requires ValidConfig(cfg) && Accepted(cfg, r) && forall q :: q in rs ==> Accepted(cfg, q)
    ensures Answer(cfg, Run(cfg, Empty, rs), r).1 ==
            if exists q :: q in rs && SameRequest(cfg, q, r) then 0 else cfg.minorFaultPenalty
  {
    hide Step, SameRequest;
    KnownWasRequested(cfg, Empty, rs, r);
    PenaltyIfUnknown(cfg, Run(cfg, Empty, rs), r);
  }

  lemma {:induction false} PenaltyIfUnknown(cfg: Config, a: Alloc, r: Request)
    requires ValidConfig(cfg) && Accepted(cfg, r)
    ensures Answer(cfg, a, r).1 == if Known(cfg, a, r) then 0 else cfg.minorFaultPenalty
  {
  }

  // ------------------------------------------------------------- the component

  class VirtualMemory {
    const cfg: Config
    var vpageToPpage: map<(nat, nat), nat>
    var pageTable: map<Entry, nat>
    var ppageFreeList: seq<nat>
    var activePtePage: nat
    var nextPtePage: nat
    var fills: nat
    ghost var alloc: Alloc

    // The list holds what the current filling has not handed out.
    ghost predicate ListMatches()
      reads this
      requires ValidConfig(cfg)
    {
      var n := PageCount(cfg);
      && fills > 0 && alloc.grants % n < n
      && alloc.grants / n == fills - 1
      && ppageFreeList == FreeListAt(cfg, fills - 1)[alloc.grants % n..]
    }

    ghost predicate MapsMatch()
      reads this
      requires ValidConfig(cfg)
    {
      && vpageToPpage.Keys == alloc.data.Keys
      && (forall k <- alloc.data :: vpageToPpage[k] == DataPage(cfg, alloc, k))
      && pageTable.Keys == alloc.frames.Keys
      && (forall e <- alloc.frames :: pageTable[e] == EntryAddress(cfg, alloc, e))
      && nextPtePage == alloc.next
      && (nextPtePage != 0 ==> activePtePage == PageAt(cfg, alloc.active))
    }

    ghost predicate Valid()
      reads this
    {
      ValidConfig(cfg) && ListMatches() && MapsMatch()
    }

    constructor (cfg: Config)
      requires ValidConfig(cfg)
      ensures Valid() && this.cfg == cfg && alloc == Empty
    {
      this.cfg := cfg;
      vpageToPpage, pageTable := map[], map[];
      activePtePage, nextPtePage, fills := 0, 0, 0;
      ppageFreeList := [];
      alloc := Empty;
      new;
      PopulatePages();
      ShufflePages();
      DivUnique(0, PageCount(cfg), 0, 0);
    }

    method PopulatePages()
      requires ValidConfig(cfg)
      modifies `ppageFreeList
      ensures ppageFreeList == Consecutive(BasePage(cfg), PageCount(cfg))
    {
      ppageFreeList := [];
      var baseAddress := BasePage(cfg);
      for i := 0 to PageCount(cfg)
        invariant ppageFreeList == Consecutive(BasePage(cfg), i)
        invariant baseAddress == BasePage(cfg) + i
      {
        ppageFreeList := ppageFreeList + [baseAddress];
        baseAddress := baseAddress + 1;
      }
    }

    method ShufflePages()
      requires ValidConfig(cfg) && ppageFreeList == Consecutive(BasePage(cfg), PageCount(cfg))
      modifies `ppageFreeList, `fills
      ensures fills == old(fills) + 1 && ppageFreeList == FreeListAt(cfg, old(fills))
    {
      assert IsPermutation(cfg.order(fills), PageCount(cfg));
      ppageFreeList := Arranged(ppageFreeList, cfg.order(fills));
      fills := fills + 1;
    }

    // The list is never empty between calls.
    method PpageFront() returns (page: nat)
      requires ValidConfig(cfg) && ListMatches()
      ensures page == PageAt(cfg, alloc.grants)
    {
      page := ppageFreeList[0];
    }

    method PpagePop()
      requires ValidConfig(cfg) && ListMatches()
      modifies `ppageFreeList, `fills, `alloc
      ensures ListMatches() && alloc == old(alloc).(grants := old(alloc).grants + 1)
    {
      ghost var n, g := PageCount(cfg), alloc.grants;
      DivMod(g, n);
      ppageFreeList := ppageFreeList[1..];
      alloc := alloc.(grants := g + 1);
      if |ppageFreeList| == 0 {
        PopulatePages();
        ShufflePages();
        assert (g / n) * n + n == (g / n + 1) * n;
        DivUnique(g + 1, n, g / n + 1, 0);
      } else {
        DivUnique(g + 1, n, g / n, g % n + 1);
      }
    }

    method VaToPa(cpu: nat, vpage: nat) returns (page: nat, penalty: nat)
      requires Valid()
      modifies this
      ensures Valid() && alloc == Step(cfg, old(alloc), Data(cpu, vpage))
      ensures (page, penalty) == Answer(cfg, old(alloc), Data(cpu, vpage))
    {
      var key := (cpu, vpage);
      var front := PpageFront();
      if key !in vpageToPpage {
        vpageToPpage := vpageToPpage[key := front];
        ghost var g := alloc.grants;
        PpagePop();
        alloc := alloc.(data := alloc.data[key := g]);
        penalty := cfg.minorFaultPenalty;
      } else {
        penalty := 0;
      }
      page := vpageToPpage[key];
    }

    method OpenPtePage()
      requires Valid()
      modifies `activePtePage, `ppageFreeList, `fills, `alloc
      ensures ListMatches() && alloc == OpenPage(old(alloc)) && activePtePage == PageAt(cfg, alloc.active)
    {
      if nextPtePage == 0 {
        ghost var g := alloc.grants;
        activePtePage := PpageFront();
        PpagePop();
        alloc := alloc.(active := g);
      }
    }

    method GetPtePa(cpu: nat, vpage: nat, level: nat) returns (paddr: nat, penalty: nat)
      requires Valid() && Accepted(cfg, Table(cpu, vpage, level))
      modifies this
      ensures Valid() && alloc == Step(cfg, old(alloc), Table(cpu, vpage, level))
      ensures (paddr, penalty) == Answer(cfg, old(alloc), Table(cpu, vpage, level))
    {
      OpenPtePage();
      var key := Entry(cpu, level, Upper(cfg, vpage, level));
      if key !in pageTable {
        pageTable := pageTable[key := FrameAddress(cfg, activePtePage, nextPtePage)];
        alloc := alloc.(frames := alloc.frames[key := Frame(alloc.active, alloc.next)],
                        next := After(cfg, alloc.next));
        nextPtePage := After(cfg, nextPtePage);
        penalty := cfg.minorFaultPenalty;
      } else {
        penalty := 0;
      }
      paddr := PteAddress(cfg, pageTable[key], GetOffset(cfg, vpage, level));
    }
  }
}
