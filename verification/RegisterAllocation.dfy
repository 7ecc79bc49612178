// Register renaming: two register alias tables, a FIFO of free physical
// registers and the physical register file (champsim/src/register_allocator.cc).
//
// The first half gives the operations as functions on a value of type Alloc
// and the invariant they keep; the class at the end performs them in place.
module RegisterAllocation {
  import opened Prelude

  const ARCH_REGS: nat := 256
  const UNMAPPED: int := -1

  datatype PhysReg = PhysReg(arch: nat, producer: nat, valid: bool, busy: bool)

  // Physical register ids are signed in the source so that -1 can mean "no mapping".
  datatype Alloc = Alloc(front: seq<int>, back: seq<int>, free: seq<int>, file: seq<PhysReg>)

  predicate InFile(a: Alloc, p: int) {
    0 <= p < |a.file|
  }

  predicate Shape(a: Alloc) {
    && |a.front| == |a.back| == ARCH_REGS
    && (forall r :: 0 <= r < ARCH_REGS ==> a.front[r] == UNMAPPED || InFile(a, a.front[r]))
    && (forall r :: 0 <= r < ARCH_REGS ==> a.back[r] == UNMAPPED || InFile(a, a.back[r]))
    && (forall k :: 0 <= k < |a.free| ==> InFile(a, a.free[k]))
    && (forall p :: 0 <= p < |a.file| ==> a.file[p].arch < ARCH_REGS)
  }

  // ---------------------------------------------------------------- operations

  function RenameDest(a: Alloc, reg: int, producer: nat): (r: (Alloc, int))
    requires Shape(a) && 0 <= reg < ARCH_REGS && a.free != []
    ensures Shape(r.0) && InFile(r.0, r.1) && |r.0.file| == |a.file|
  {
    var p := a.free[0];
    (Alloc(a.front[reg := p], a.back, a.free[1..], a.file[p := PhysReg(reg, producer, false, true)]), p)
  }

  function RenameSrc(a: Alloc, reg: int): (r: (Alloc, int))
    requires Shape(a) && 0 <= reg < ARCH_REGS
    requires a.front[reg] < 0 ==> a.free != []
    ensures Shape(r.0) && InFile(r.0, r.1) && |r.0.file| == |a.file|
  {
    if a.front[reg] < 0 then
      var p := a.free[0];
      (Alloc(a.front[reg := p], a.back[reg := p], a.free[1..], a.file[p := PhysReg(reg, 0, true, true)]), p)
    else
      (a, a.front[reg])
  }

  function CompleteDest(a: Alloc, p: int): (r: Alloc)
    requires Shape(a) && InFile(a, p)
    ensures Shape(r) && |r.file| == |a.file|
  {
    a.(file := a.file[p := a.file[p].(valid := true)])
  }

  function FreeRegister(a: Alloc, p: int): (r: Alloc)
    requires Shape(a) && InFile(a, p)
    ensures Shape(r) && |r.file| == |a.file|
  {
    a.(file := a.file[p := PhysReg(255, 0, false, false)], free := a.free + [p])
  }

  function RetireDest(a: Alloc, p: int): (r: Alloc)
    requires Shape(a) && InFile(a, p)
    ensures Shape(r) && |r.file| == |a.file|
  {
    var arch := a.file[p].arch;
    var old_ := a.back[arch];
    var a1 := a.(back := a.back[arch := p]);
    if old_ != UNMAPPED then FreeRegister(a1, old_) else a1
  }

  // A register that retirement frees is handed out after all that were free before.
  lemma {:induction false} FreedComesLast(a: Alloc, p: int, reg: int, producer: nat)
    requires Shape(a) && InFile(a, p) && 0 <= reg < ARCH_REGS && a.free != []
    ensures var b := RetireDest(a, p);
            && |b.free| <= |a.free| + 1 && b.free[..|a.free|] == a.free
            && (RenameDest(b, reg, producer).1 == a.free[0])
            && (b.front[reg] < 0 ==> RenameSrc(b, reg).1 == a.free[0])
  {
  }

  // ---------------------------------------------------------------- invariant

  // A destination that has been renamed and whose instruction has not retired,
  // oldest first. `done` says that its instruction has completed.
  datatype Write = Write(arch: int, phys: int, producer: nat, done: bool)

  // The register that a reader coming right after the writes `ws` must see:
  // the one made by the youngest write of r, or else the committed one.
  function Lookup(back: seq<int>, ws: seq<Write>, r: int): int
    requires 0 <= r < |back|
  {
    if ws == [] then back[r]
    else if ws[|ws| - 1].arch == r then ws[|ws| - 1].phys
    else Lookup(back, ws[..|ws| - 1], r)
  }

  function PhysOf(ws: seq<Write>): (ps: seq<int>)
    ensures |ps| == |ws| && forall k :: 0 <= k < |ws| ==> ps[k] == ws[k].phys
  {
    seq(|ws|, k requires 0 <= k < |ws| => ws[k].phys)
  }

  // How many of the three places a physical register can be in hold p.
  function Owners(a: Alloc, ws: seq<Write>, p: int): nat {
    multiset(a.free)[p] + multiset(a.back)[p] + multiset(PhysOf(ws))[p]
  }

  // `committed[r]` is the id of the youngest retired writer of r, 0 if there is none.
  ghost predicate AllocInv(a: Alloc, ws: seq<Write>, committed: seq<nat>) {
    && Shape(a)
    && |committed| == ARCH_REGS
    && (forall k :: 0 <= k < |ws| ==> 0 <= ws[k].arch < ARCH_REGS && InFile(a, ws[k].phys))
    && (forall r :: 0 <= r < ARCH_REGS ==> a.front[r] == Lookup(a.back, ws, r))
    && (forall p :: 0 <= p < |a.file| ==> Owners(a, ws, p) == 1)
    && (forall r :: 0 <= r < ARCH_REGS && a.back[r] >= 0 ==>
          a.file[a.back[r]] == PhysReg(r, committed[r], true, true))
    && (forall r :: 0 <= r < ARCH_REGS && a.back[r] < 0 ==> committed[r] == 0)
    && (forall k :: 0 <= k < |ws| ==>
          a.file[ws[k].phys] == PhysReg(ws[k].arch, ws[k].producer, ws[k].done, true))
  }

  // What Lookup returns is named by the committed table or by an in-flight write.
  lemma {:induction false} LookupNamed(back: seq<int>, ws: seq<Write>, r: int)
    requires 0 <= r < |back|
    ensures Lookup(back, ws, r) == back[r] || exists k :: 0 <= k < |ws| && ws[k].phys == Lookup(back, ws, r)
  {
    if ws != [] && ws[|ws| - 1].arch != r {
      LookupNamed(back, ws[..|ws| - 1], r);
    }
  }

  lemma {:induction false} NotFree(a: Alloc, ws: seq<Write>, c: seq<nat>, p: int)
    requires AllocInv(a, ws, c) && InFile(a, p)
    requires p in a.back || exists k :: 0 <= k < |ws| && ws[k].phys == p
    ensures p !in a.free
  {
    assert Owners(a, ws, p) == 1;
    if k :| 0 <= k < |ws| && ws[k].phys == p {
      assert PhysOf(ws)[k] == p;
      assert p in multiset(PhysOf(ws));
    }
    assert (p in a.back <==> p in multiset(a.back)) && (p in a.free <==> p in multiset(a.free));
  }

  // Distinct homes: no register is both committed and in flight, nor in flight twice.
  lemma {:induction false} Exclusive(a: Alloc, ws: seq<Write>, c: seq<nat>, k: int)
    requires AllocInv(a, ws, c) && 0 <= k < |ws|
    ensures ws[k].phys !in a.back && ws[k].phys !in a.free
    ensures forall j :: 0 <= j < |ws| && j != k ==> ws[j].phys != ws[k].phys
  {
    var p := ws[k].phys;
    var ps := PhysOf(ws);
    assert Owners(a, ws, p) == 1;
    assert p in multiset(ps) by { assert ps[k] == p; }
    assert (p in a.back <==> p in multiset(a.back)) && (p in a.free <==> p in multiset(a.free));
    forall j | 0 <= j < |ws| && j != k ensures ws[j].phys != p {
      if ws[j].phys == p { TwiceInSeq(ps, j, k); }
    }
  }

  // Mapped committed registers are pairwise distinct.
  lemma {:induction false} BackInjective(a: Alloc, ws: seq<Write>, c: seq<nat>, r: int, q: int)
    requires AllocInv(a, ws, c) && 0 <= r < ARCH_REGS && 0 <= q < ARCH_REGS && r != q && a.back[r] >= 0
    ensures a.back[r] != a.back[q]
  {
    assert Owners(a, ws, a.back[r]) == 1;
    if a.back[r] == a.back[q] { TwiceInSeq(a.back, r, q); }
  }

  lemma {:induction false} RenameDestInv(a: Alloc, ws: seq<Write>, c: seq<nat>, reg: int, producer: nat)
    requires AllocInv(a, ws, c) && 0 <= reg < ARCH_REGS && a.free != []
    ensures var r := RenameDest(a, reg, producer);
            AllocInv(r.0, ws + [Write(reg, r.1, producer, false)], c)
  {
    var (b, p) := RenameDest(a, reg, producer);
    var ws' := ws + [Write(reg, p, producer, false)];
    assert ws'[..|ws|] == ws;
    assert PhysOf(ws') == PhysOf(ws) + [p];
    assert a.free == [p] + b.free;
    assert Owners(a, ws, p) == 1;
    forall q | 0 <= q < |b.file| ensures Owners(b, ws', q) == 1 {
      assert Owners(a, ws, q) == 1;
    }
    assert p in multiset(a.free);
    assert p !in multiset(a.back) && p !in multiset(PhysOf(ws));
    forall k | 0 <= k < |ws| ensures ws[k].phys != p { assert PhysOf(ws)[k] in multiset(PhysOf(ws)); }
    forall r | 0 <= r < ARCH_REGS ensures a.back[r] != p { assert a.back[r] in multiset(a.back); }
  }

  // An unmapped architectural register has no in-flight writer either.
  lemma {:induction false} UnmappedNotWritten(a: Alloc, ws: seq<Write>, r: int)
    requires |a.back| == ARCH_REGS && 0 <= r < ARCH_REGS && Lookup(a.back, ws, r) < 0
    requires forall k :: 0 <= k < |ws| ==> ws[k].phys >= 0
    ensures forall k :: 0 <= k < |ws| ==> ws[k].arch != r
    ensures forall j :: 0 <= j <= |ws| ==> Lookup(a.back, ws[..j], r) == a.back[r]
  {
    if ws == [] {
      assert ws[..0] == ws;
    } else {
      var n := |ws| - 1;
      UnmappedNotWritten(a, ws[..n], r);
      forall j | 0 <= j <= |ws| ensures Lookup(a.back, ws[..j], r) == a.back[r] {
        if j < |ws| { assert ws[..n][..j] == ws[..j]; } else { assert ws[..j] == ws; }
      }
    }
  }

  // Changing the committed entry of r does not change what others read, and
  // does not change what is read of r after a write of r.
  lemma {:induction false} LookupUpdate(back: seq<int>, ws: seq<Write>, r: int, p: int, q: int)
    requires 0 <= r < |back| && 0 <= q < |back|
    ensures Lookup(back[r := p], ws, q) ==
            if q == r && (forall k :: 0 <= k < |ws| ==> ws[k].arch != r) then p else Lookup(back, ws, q)
  {
    if ws != [] {
      var n := |ws| - 1;
      LookupUpdate(back, ws[..n], r, p, q);
      assert (forall k :: 0 <= k < |ws| ==> ws[k].arch != r) <==>
             ws[n].arch != r && (forall k :: 0 <= k < n ==> ws[..n][k].arch != r);
    }
  }

  // Renaming a source never disturbs a register that an older instruction reads.
  lemma {:induction false} RenameSrcInv(a: Alloc, ws: seq<Write>, c: seq<nat>, reg: int)
    requires AllocInv(a, ws, c) && 0 <= reg < ARCH_REGS
    requires a.front[reg] < 0 ==> a.free != []
    ensures var r := RenameSrc(a, reg);
            && AllocInv(r.0, ws, c)
            && r.1 == Lookup(r.0.back, ws, reg)
            && Stable(a, r.0, ws)
  {
    if a.front[reg] < 0 {
      var (b, p) := RenameSrc(a, reg);
      UnmappedNotWritten(a, ws, reg);
      assert ws[..|ws|] == ws;
      assert a.back[reg] == UNMAPPED;
      assert a.free == [p] + b.free;
      assert p in multiset(a.free);
      assert Owners(a, ws, p) == 1;
      forall q | 0 <= q < |b.file| ensures Owners(b, ws, q) == 1 { assert Owners(a, ws, q) == 1; }
      forall k | 0 <= k < |ws| ensures ws[k].phys != p { assert PhysOf(ws)[k] in multiset(PhysOf(ws)); }
      forall r | 0 <= r < ARCH_REGS ensures a.back[r] != p { assert a.back[r] in multiset(a.back); }
      forall q, j | 0 <= q < ARCH_REGS && 0 <= j <= |ws|
        ensures Lookup(b.back, ws[..j], q) == if q == reg then p else Lookup(a.back, ws[..j], q)
      {
        LookupUpdate(a.back, ws[..j], reg, p, q);
      }
      forall r | 0 <= r < ARCH_REGS ensures b.front[r] == Lookup(b.back, ws, r) {
        assert Lookup(b.back, ws[..|ws|], r) == if r == reg then p else Lookup(a.back, ws[..|ws|], r);
      }
      assert Stable(a, b, ws);
    }
  }

  // Every register readable after some prefix of ws still reads the same, with
  // the same tag and valid bit.
  ghost predicate Stable(a: Alloc, b: Alloc, ws: seq<Write>)
    requires Shape(a) && Shape(b)
  {
    && |a.file| == |b.file|
    && (forall q, j :: 0 <= q < ARCH_REGS && 0 <= j <= |ws| && Lookup(a.back, ws[..j], q) >= 0 ==>
          Lookup(b.back, ws[..j], q) == Lookup(a.back, ws[..j], q))
    && (forall p :: 0 <= p < |a.file| && p !in a.free ==> a.file[p] == b.file[p])
  }

  lemma {:induction false} CompleteInv(a: Alloc, ws: seq<Write>, c: seq<nat>, k: int)
    requires AllocInv(a, ws, c) && 0 <= k < |ws|
    ensures AllocInv(CompleteDest(a, ws[k].phys), ws[k := ws[k].(done := true)], c)
  {
    var b := CompleteDest(a, ws[k].phys);
    var ws' := ws[k := ws[k].(done := true)];
    Exclusive(a, ws, c, k);
    assert PhysOf(ws') == PhysOf(ws);
    forall p | 0 <= p < |b.file| ensures Owners(b, ws', p) == 1 { assert Owners(a, ws, p) == 1; }
    forall r | 0 <= r < ARCH_REGS ensures a.front[r] == Lookup(a.back, ws', r) { LookupSameNames(a.back, ws, ws', r); }
  }

  lemma {:induction false} LookupSameNames(back: seq<int>, ws: seq<Write>, ws': seq<Write>, r: int)
    requires 0 <= r < |back| && |ws| == |ws'|
    requires forall k :: 0 <= k < |ws| ==> ws[k].arch == ws'[k].arch && ws[k].phys == ws'[k].phys
    ensures Lookup(back, ws, r) == Lookup(back, ws', r)
  {
    if ws != [] { LookupSameNames(back, ws[..|ws| - 1], ws'[..|ws| - 1], r); }
  }

  // Committing the oldest write and dropping it from the in-flight list leaves
  // what every later reader sees unchanged.
  lemma {:induction false} LookupRetire(back: seq<int>, ws: seq<Write>, r: int)
    requires ws != [] && 0 <= ws[0].arch < |back| && 0 <= r < |back|
    ensures Lookup(back[ws[0].arch := ws[0].phys], ws[1..], r) == Lookup(back, ws, r)
  {
    var n := |ws| - 1;
    if n == 0 {
      assert ws[..n] == [];
    } else {
      LookupRetire(back, ws[..n], r);
      assert ws[..n][1..] == ws[1..][..n - 1];
    }
  }

  // Retiring the oldest write moves it to the committed table and frees the
  // version it replaces. Nothing any unretired instruction names is freed.
  lemma {:induction false} RetireOwners(a: Alloc, ws: seq<Write>, p: nat)
    requires Shape(a) && ws != [] && InFile(a, ws[0].phys) && 0 <= a.file[ws[0].phys].arch < ARCH_REGS
    requires a.file[ws[0].phys].arch == ws[0].arch && p < |a.file| && Owners(a, ws, p) == 1
    ensures Owners(RetireDest(a, ws[0].phys), ws[1..], p) == 1
  {
    assert PhysOf(ws) == [ws[0].phys] + PhysOf(ws[1..]);
  }

  lemma {:induction false} RetireInv(a: Alloc, ws: seq<Write>, c: seq<nat>)
    requires AllocInv(a, ws, c) && ws != [] && ws[0].done
    ensures var w := ws[0];
            && AllocInv(RetireDest(a, w.phys), ws[1..], c[w.arch := w.producer])
            && RetireDest(a, w.phys).back == a.back[w.arch := w.phys]
            && (forall p :: InFile(a, p) && p !in RetireDest(a, w.phys).free ==>
                  RetireDest(a, w.phys).file[p] == a.file[p])
  {
    hide Lookup;
    var w := ws[0];
    var b := RetireDest(a, w.phys);
    var old_ := a.back[w.arch];
    var rest := ws[1..];
    Exclusive(a, ws, c, 0);
    assert PhysOf(ws) == [w.phys] + PhysOf(rest);
    forall r | 0 <= r < ARCH_REGS ensures b.front[r] == Lookup(b.back, rest, r) { LookupRetire(a.back, ws, r); }
    forall p | 0 <= p < |b.file| ensures Owners(b, rest, p) == 1 { RetireOwners(a, ws, p); }
    if old_ != UNMAPPED {
      assert old_ in multiset(a.back);
      assert Owners(a, ws, old_) == 1;
      forall r | 0 <= r < ARCH_REGS ensures b.back[r] != old_ {
        if r != w.arch { BackInjective(a, ws, c, w.arch, r); }
      }
      forall k | 0 <= k < |ws| ensures ws[k].phys != old_ { Exclusive(a, ws, c, k); }
    }
  }

  // ------------------------------------------------------------ conservation

  function Iota(n: nat): (s: seq<int>)
    ensures |s| == n && forall i :: 0 <= i < n ==> s[i] == i
  {
    seq(n, i => i)
  }

  lemma {:induction false} IotaCount(n: nat, p: int)
    ensures multiset(Iota(n))[p] == if 0 <= p < n then 1 else 0
  {
    if n > 0 {
      IotaCount(n - 1, p);
      assert Iota(n) == Iota(n - 1) + [n - 1];
    }
  }

  function Mapped(rat: seq<int>): (n: int) {
    |rat| - multiset(rat)[UNMAPPED]
  }

  // free + committed mappings + unretired renamed destinations = file size.
  lemma {:induction false} Conservation(a: Alloc, ws: seq<Write>, c: seq<nat>)
    requires AllocInv(a, ws, c)
    ensures |a.free| + Mapped(a.back) + |ws| == |a.file|
    ensures forall i, j :: 0 <= i < j < |a.free| ==> a.free[i] != a.free[j]
  {
    var all := multiset(a.free) + multiset(a.back)[UNMAPPED := 0] + multiset(PhysOf(ws));
    var iota := multiset(Iota(|a.file|));
    forall p: int ensures all[p] == iota[p] {
      IotaCount(|a.file|, p);
      if InFile(a, p) {
        assert Owners(a, ws, p) == 1;
      } else {
        assert p !in multiset(a.free);
        assert p != UNMAPPED ==> p !in multiset(a.back);
        assert p !in multiset(PhysOf(ws));
      }
    }
    assert all == iota;
    forall i, j | 0 <= i < j < |a.free| ensures a.free[i] != a.free[j] {
      assert Owners(a, ws, a.free[i]) == 1;
      if a.free[i] == a.free[j] { TwiceInSeq(a.free, i, j); }
    }
  }

  // ------------------------------------------------------------------- class

  function Initial(n: nat): Alloc {
    Alloc(seq(ARCH_REGS, _ => UNMAPPED), seq(ARCH_REGS, _ => UNMAPPED), Iota(n),
          seq(n, _ => PhysReg(0, 0, false, false)))
  }

  lemma {:induction false} InitialInv(n: nat)
    ensures AllocInv(Initial(n), [], seq(ARCH_REGS, _ => 0))
  {
    var a := Initial(n);
    forall p | 0 <= p < n ensures Owners(a, [], p) == 1 {
      IotaCount(n, p);
      assert p !in a.back;
    }
  }

  class RegisterAllocator {
    const frontendRAT: array<int>
    const backendRAT: array<int>
    const physicalRegisterFile: array<PhysReg>
    var freeRegisters: seq<int>

    ghost function View(): Alloc
      reads this, frontendRAT, backendRAT, physicalRegisterFile
    {
      Alloc(frontendRAT[..], backendRAT[..], freeRegisters, physicalRegisterFile[..])
    }

    ghost const Repr: set<object> := {this, frontendRAT, backendRAT, physicalRegisterFile}

    ghost predicate Valid()
      reads this, frontendRAT, backendRAT, physicalRegisterFile
    {
      frontendRAT != backendRAT && Shape(View())
    }

    constructor (numPhysicalRegisters: nat)
      requires numPhysicalRegisters <= 32767
      ensures Valid() && View() == Initial(numPhysicalRegisters)
      ensures fresh(Repr)
    {
      var front := new int[ARCH_REGS](_ => UNMAPPED);
      var back := new int[ARCH_REGS](_ => UNMAPPED);
      var file := new PhysReg[numPhysicalRegisters](_ => PhysReg(0, 0, false, false));
      var free := [];
      for i := 0 to numPhysicalRegisters
        invariant free == Iota(i)
      {
        free := free + [i];
      }
      frontendRAT, backendRAT, physicalRegisterFile, freeRegisters := front, back, file, free;
      new;
      assert frontendRAT[..] == Initial(numPhysicalRegisters).front;
      assert backendRAT[..] == Initial(numPhysicalRegisters).back;
      assert physicalRegisterFile[..] == Initial(numPhysicalRegisters).file;
    }

    method RenameDestRegister(reg: int, producer: nat) returns (p: int)
      requires Valid() && 0 <= reg < ARCH_REGS && freeRegisters != []
      modifies this, frontendRAT, physicalRegisterFile
      ensures Valid() && (View(), p) == RenameDest(old(View()), reg, producer)
    {
      p := freeRegisters[0];
      freeRegisters := freeRegisters[1..];
      frontendRAT[reg] := p;
      physicalRegisterFile[p] := PhysReg(reg, producer, false, true);
    }

    method RenameSrcRegister(reg: int) returns (p: int)
      requires Valid() && 0 <= reg < ARCH_REGS
      requires frontendRAT[reg] < 0 ==> freeRegisters != []
      modifies this, frontendRAT, backendRAT, physicalRegisterFile
      ensures Valid() && (View(), p) == RenameSrc(old(View()), reg)
    {
      p := frontendRAT[reg];
      if p < 0 {
        // first use of a register whose last write lies before the trace
        p := freeRegisters[0];
        freeRegisters := freeRegisters[1..];
        frontendRAT[reg] := p;
        backendRAT[reg] := p;
        physicalRegisterFile[p] := PhysReg(reg, 0, true, true);
      }
    }

    method CompleteDestRegister(p: int)
      requires Valid() && 0 <= p < physicalRegisterFile.Length
      modifies physicalRegisterFile
      ensures Valid() && View() == CompleteDest(old(View()), p)
    {
      physicalRegisterFile[p] := physicalRegisterFile[p].(valid := true);
    }

    method RetireDestRegister(p: int)
      requires Valid() && 0 <= p < physicalRegisterFile.Length
      modifies this, backendRAT, physicalRegisterFile
      ensures Valid() && View() == RetireDest(old(View()), p)
    {
      var arch := physicalRegisterFile[p].arch;
      var replaced := backendRAT[arch];
      backendRAT[arch] := p;
      if replaced != UNMAPPED {
        FreePhysical(replaced);
      }
    }

    method FreePhysical(p: int)
      requires Valid() && 0 <= p < physicalRegisterFile.Length
      modifies this, physicalRegisterFile
      ensures Valid() && View() == FreeRegister(old(View()), p)
    {
      physicalRegisterFile[p] := PhysReg(255, 0, false, false);
      freeRegisters := freeRegisters + [p];
    }
  }
}
