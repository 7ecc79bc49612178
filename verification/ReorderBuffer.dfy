// Scheduling (renaming), execution, completion and retirement over the reorder
// buffer (champsim/src/ooo_cpu.cc), and what they keep true of the registers
// that instructions name.
module ReorderBuffer {
  import opened Prelude
  import opened RegisterAllocation
  import opened Pipeline

  predicate ArchReg(r: int) {
    0 <= r < ARCH_REGS
  }

  predicate ArchRegs(regs: seq<int>) {
    forall k :: 0 <= k < |regs| ==> 0 <= regs[k] < ARCH_REGS
  }

  predicate AllInFile(a: Alloc, regs: seq<int>) {
    forall k :: 0 <= k < |regs| ==> 0 <= regs[k] < |a.file|
  }

  predicate RegsInRange(ins: Instr) {
    ArchRegs(ins.src) && ArchRegs(ins.dst)
  }

  // ---------------------------------------------------------------- scheduling

  // Sources that would have to be given a register, a repeated one counted again.
  function Unmapped(front: seq<int>, srcs: seq<int>): nat
    requires |front| == ARCH_REGS && ArchRegs(srcs)
  {
    if srcs == [] then 0
    else Unmapped(front, srcs[..|srcs| - 1]) + if front[srcs[|srcs| - 1]] == UNMAPPED then 1 else 0
  }

  // Enough free registers for the scheduler's guard is enough for every pop.
  function RenameSources(a: Alloc, srcs: seq<int>): (r: (Alloc, seq<int>))
    requires Shape(a) && ArchRegs(srcs)
    requires Unmapped(a.front, srcs) <= |a.free|
    ensures Shape(r.0) && |r.0.file| == |a.file| && |r.1| == |srcs|
    ensures AllInFile(a, r.1)
    ensures |r.0.free| + Unmapped(a.front, srcs) >= |a.free|
    ensures forall q :: ArchReg(q) && r.0.front[q] < 0 ==> a.front[q] < 0
  {
    if srcs == [] then (a, [])
    else
      var n := |srcs| - 1;
      var (a1, names) := RenameSources(a, srcs[..n]);
      var (a2, p) := RenameSrc(a1, srcs[n]);
      (a2, names + [p])
  }

  function RenameDests(a: Alloc, dsts: seq<int>, id: nat): (r: (Alloc, seq<int>))
    requires Shape(a) && ArchRegs(dsts)
    requires |dsts| <= |a.free|
    ensures Shape(r.0) && |r.0.file| == |a.file| && |r.1| == |dsts|
    ensures AllInFile(a, r.1)
    ensures |r.0.free| == |a.free| - |dsts|
  {
    if dsts == [] then (a, [])
    else
      var n := |dsts| - 1;
      var (a1, names) := RenameDests(a, dsts[..n], id);
      var (a2, p) := RenameDest(a1, dsts[n], id);
      (a2, names + [p])
  }

  function Need(a: Alloc, ins: Instr): nat
    requires Shape(a) && RegsInRange(ins)
  {
    Unmapped(a.front, ins.src) + |ins.dst|
  }

  function DoScheduling(a: Alloc, ins: Instr): (r: (Alloc, Instr))
    requires Shape(a) && RegsInRange(ins) && Need(a, ins) <= |a.free|
    ensures Shape(r.0) && |r.0.file| == |a.file|
    ensures AllInFile(a, r.1.src) && AllInFile(a, r.1.dst)
  {
    var (a1, srcs) := RenameSources(a, ins.src);
    var (a2, dsts) := RenameDests(a1, ins.dst, ins.id);
    (a2, ins.(src := srcs, dst := dsts, scheduled := true))
  }

  function ScheduleStep(a: Alloc, rob: seq<Instr>, i: nat, now: int): (r: (Alloc, seq<Instr>))
    requires Shape(a) && i < |rob| && RegsInRange(rob[i]) && Need(a, rob[i]) <= |a.free|
    ensures Shape(r.0) && |r.0.file| == |a.file| && |r.1| == |rob|
    ensures |a.file| <= ARCH_REGS && (forall k :: 0 <= k < |rob| ==> RegsInRange(rob[k])) ==>
              forall k :: 0 <= k < |rob| ==> RegsInRange(r.1[k])
  {
    if !rob[i].scheduled && rob[i].readyTime <= now then
      var (a1, ins) := DoScheduling(a, rob[i]);
      (a1, rob[i := ins])
    else
      (a, rob)
  }

  // The scheduling loop from entry i on. The register guard is evaluated for
  // every entry, also for one that is already renamed, whose `src` then holds
  // physical ids: with at most 256 physical registers these still index the table.
  function ScheduleFrom(a: Alloc, rob: seq<Instr>, i: nat, bw: nat, now: int): (r: (Alloc, seq<Instr>))
    requires Shape(a) && |a.file| <= ARCH_REGS && i <= |rob|
    requires forall k :: 0 <= k < |rob| ==> RegsInRange(rob[k])
    ensures Shape(r.0) && |r.0.file| == |a.file| && |r.1| == |rob|
    ensures forall k :: 0 <= k < |rob| ==> RegsInRange(r.1[k])
    decreases |rob| - i
  {
    if i == |rob| || bw == 0 || |a.free| < Need(a, rob[i]) then (a, rob)
    else
      var (a1, rob1) := ScheduleStep(a, rob, i, now);
      ScheduleFrom(a1, rob1, i + 1, if rob1[i].executed then bw else bw - 1, now)
  }

  // ------------------------------------------------------ execution, completion

  predicate SourcesValid(a: Alloc, ins: Instr) {
    AllInFile(a, ins.src) && forall k :: 0 <= k < |ins.src| ==> a.file[ins.src[k]].valid
  }

  predicate CanExecute(a: Alloc, ins: Instr, now: int) {
    ins.scheduled && !ins.executed && ins.readyTime <= now && SourcesValid(a, ins)
  }

  function Execute(ins: Instr, at: int): Instr {
    ins.(executed := true, readyTime := at)
  }

  function CompleteDests(a: Alloc, dsts: seq<int>): (r: Alloc)
    requires Shape(a) && AllInFile(a, dsts)
    ensures Shape(r) && |r.file| == |a.file|
  {
    if dsts == [] then a
    else CompleteDest(CompleteDests(a, dsts[..|dsts| - 1]), dsts[|dsts| - 1])
  }

  predicate CanComplete(ins: Instr, now: int) {
    ins.executed && !ins.completed && ins.readyTime <= now && ins.memDone == ins.NumMemOps()
  }

  // ---------------------------------------------------------------- retirement

  function RetireDests(a: Alloc, dsts: seq<int>): (r: Alloc)
    requires Shape(a) && AllInFile(a, dsts)
    ensures Shape(r) && |r.file| == |a.file|
  {
    if dsts == [] then a
    else RetireDest(RetireDests(a, dsts[..|dsts| - 1]), dsts[|dsts| - 1])
  }

  // ------------------------------------------------------------- specification

  function WritesUpTo(ins: Instr, n: nat): (ws: seq<Write>)
    requires n <= |ins.dst| == |ins.archDst|
    ensures |ws| == n
    ensures forall k :: 0 <= k < n ==> ws[k] == Write(ins.archDst[k], ins.dst[k], ins.id, ins.completed)
  {
    if n == 0 then [] else WritesUpTo(ins, n - 1) + [Write(ins.archDst[n - 1], ins.dst[n - 1], ins.id, ins.completed)]
  }

  function WritesOf(ins: Instr): seq<Write> {
    if ins.scheduled && |ins.archDst| == |ins.dst| then WritesUpTo(ins, |ins.dst|) else []
  }

  // All in-flight register writes, oldest first.
  function Writes(rob: seq<Instr>): seq<Write> {
    if rob == [] then [] else WritesOf(rob[0]) + Writes(rob[1..])
  }

  // The id of the youngest instruction of the history that writes r, 0 if none does.
  function YoungestWriter(history: seq<Instr>, r: int): nat {
    if history == [] then 0
    else if r in history[|history| - 1].archDst then history[|history| - 1].id
    else YoungestWriter(history[..|history| - 1], r)
  }

  function Committed(retired: seq<Instr>): (c: seq<nat>)
    ensures |c| == ARCH_REGS
  {
    seq(ARCH_REGS, r => YoungestWriter(retired, r))
  }

  predicate WellNamed(ins: Instr) {
    && |ins.src| == |ins.archSrc| && |ins.dst| == |ins.archDst|
    && ArchRegs(ins.archSrc) && ArchRegs(ins.archDst)
    && (ins.completed ==> ins.executed) && (ins.executed ==> ins.scheduled)
    && (!ins.scheduled ==> ins.src == ins.archSrc && ins.dst == ins.archDst)
  }

  ghost predicate SourcesRight(a: Alloc, ws: seq<Write>, ins: Instr)
    requires Shape(a) && WellNamed(ins)
  {
    AllInFile(a, ins.src) &&
    forall k :: 0 <= k < |ins.src| ==> ins.src[k] == Lookup(a.back, ws, ins.archSrc[k])
  }

  // Renamed instructions form a prefix, and those that wait become ready in order.
  predicate InOrder(rob: seq<Instr>, horizon: int) {
    && (forall i, j :: 0 <= i < j < |rob| && rob[j].scheduled ==> rob[i].scheduled)
    && (forall i, j :: 0 <= i < j < |rob| && !rob[i].scheduled ==> rob[i].readyTime <= rob[j].readyTime)
    && (forall i :: 0 <= i < |rob| && !rob[i].scheduled ==> rob[i].readyTime <= horizon)
  }

  // Entry i names the right sources, and holds valid ones if it has executed.
  ghost predicate EntryOk(a: Alloc, rob: seq<Instr>, i: nat)
    requires Shape(a) && i < |rob|
  {
    && WellNamed(rob[i])
    && (rob[i].scheduled ==> SourcesRight(a, Writes(rob[..i]), rob[i]))
    && (rob[i].executed ==> SourcesValid(a, rob[i]))
  }

  ghost predicate RobParts(a: Alloc, rob: seq<Instr>, retired: seq<Instr>, horizon: int) {
    && |a.file| <= ARCH_REGS
    && InOrder(rob, horizon)
    && AllocInv(a, Writes(rob), Committed(retired))
    && (forall i :: 0 <= i < |rob| ==> EntryOk(a, rob, i))
  }

  // The invariant is sealed: it is the conjunction RobParts, but a proof that does
  // not look inside, and so mentions no RobSeal, is not burdened with the parts.
  predicate RobSeal(k: nat) {
    true
  }

  ghost predicate RobInv(a: Alloc, rob: seq<Instr>, retired: seq<Instr>, horizon: int) {
    Shape(a) && |a.file| <= ARCH_REGS && forall k: nat :: RobSeal(k) ==> RobParts(a, rob, retired, horizon)
  }

  lemma {:induction false} OpenRobInv(a: Alloc, rob: seq<Instr>, retired: seq<Instr>, horizon: int)
    requires RobInv(a, rob, retired, horizon)
    ensures RobParts(a, rob, retired, horizon)
  {
    assert RobSeal(0);
  }

  // ------------------------------------------------- structure of the write list

  lemma {:induction false} WritesConcat(x: seq<Instr>, y: seq<Instr>)
    ensures Writes(x + y) == Writes(x) + Writes(y)
  {
    hide WritesOf;
    if x == [] {
      assert x + y == y;
    } else {
      WritesConcat(x[1..], y);
      assert (x + y)[1..] == x[1..] + y;
      ConcatAssoc(WritesOf(x[0]), Writes(x[1..]), Writes(y));
    }
  }

  lemma {:induction false} WritesOne(ins: Instr)
    ensures Writes([ins]) == WritesOf(ins)
  {
    assert [ins][1..] == [];
  }

  lemma {:induction false} WritesSnoc(rob: seq<Instr>, i: nat)
    requires i < |rob|
    ensures Writes(rob[..i + 1]) == Writes(rob[..i]) + WritesOf(rob[i])
  {
    hide Writes, WritesOf;
    WritesConcat(rob[..i], [rob[i]]);
    WritesOne(rob[i]);
    assert rob[..i + 1] == rob[..i] + [rob[i]];
  }

  // The writes before entry i, its own, and the ones after it.
  lemma {:induction false} WritesSplit(rob: seq<Instr>, i: nat)
    requires i < |rob|
    ensures Writes(rob) == Writes(rob[..i]) + WritesOf(rob[i]) + Writes(rob[i + 1..])
  {
    WritesConcat(rob[..i + 1], rob[i + 1..]);
    assert rob == rob[..i + 1] + rob[i + 1..];
    WritesSnoc(rob, i);
  }

  lemma {:induction false} NoWrites(rob: seq<Instr>)
    requires forall i :: 0 <= i < |rob| ==> !rob[i].scheduled
    ensures Writes(rob) == []
  {
    if rob != [] { NoWrites(rob[1..]); }
  }

  // Entries whose names, scheduling and completion agree make the same writes.
  predicate SameNames(x: Instr, y: Instr) {
    && x.id == y.id && x.archSrc == y.archSrc && x.archDst == y.archDst && x.src == y.src && x.dst == y.dst
    && x.scheduled == y.scheduled && x.completed == y.completed
  }

  lemma {:induction false} WritesSame(x: seq<Instr>, y: seq<Instr>)
    requires |x| == |y| && forall i :: 0 <= i < |x| ==> SameNames(x[i], y[i])
    ensures Writes(x) == Writes(y)
  {
    if x != [] {
      assert SameNames(x[0], y[0]);
      WritesSame(x[1..], y[1..]);
    }
  }

  // A reader after ws + vs sees the last matching write of vs, if there is one.
  lemma {:induction false} LookupConcat(back: seq<int>, ws: seq<Write>, vs: seq<Write>, r: int)
    requires 0 <= r < |back|
    ensures if exists k :: 0 <= k < |vs| && vs[k].arch == r
            then exists k :: 0 <= k < |vs| && vs[k].arch == r && Lookup(back, ws + vs, r) == vs[k].phys
            else Lookup(back, ws + vs, r) == Lookup(back, ws, r)
  {
    if vs == [] {
      assert ws + vs == ws;
    } else {
      var n := |vs| - 1;
      assert (ws + vs)[..|ws + vs| - 1] == ws + vs[..n];
      if vs[n].arch == r {
        assert Lookup(back, ws + vs, r) == vs[n].phys;
      } else {
        LookupConcat(back, ws, vs[..n], r);
        if k :| 0 <= k < n && vs[..n][k].arch == r && Lookup(back, ws + vs[..n], r) == vs[..n][k].phys {
          assert vs[k].arch == r && Lookup(back, ws + vs, r) == vs[k].phys;
        } else {
          assert forall k :: 0 <= k < |vs| && k < n ==> vs[k].arch == vs[..n][k].arch;
        }
      }
    }
  }

  // ------------------------------------------------------------ main theorems

  // Position of the youngest instruction before entry n that writes r, -1 if none is in flight.
  function InFlightWriter(rob: seq<Instr>, n: nat, r: int): (w: int)
    requires n <= |rob|
    ensures -1 <= w < n
    ensures w >= 0 ==> r in rob[w].archDst
    ensures forall j :: w < j < n ==> r !in rob[j].archDst
  {
    if n == 0 then -1
    else if r in rob[n - 1].archDst then n - 1
    else InFlightWriter(rob, n - 1, r)
  }

  // What the register file records about the k-th register written by entry m.
  lemma {:induction false} WriteTag(a: Alloc, rob: seq<Instr>, retired: seq<Instr>, horizon: int, m: nat, k: nat)
    requires RobInv(a, rob, retired, horizon) && m < |rob| && rob[m].scheduled
    requires k < |rob[m].dst|
    ensures var ins := rob[m];
            && |ins.dst| == |ins.archDst|
            && InFile(a, ins.dst[k]) && ins.dst[k] !in a.free
            && var t := a.file[ins.dst[k]];
               t.arch == ins.archDst[k] && t.producer == ins.id && t.valid == ins.completed
  {
    OpenRobInv(a, rob, retired, horizon);
    assert EntryOk(a, rob, m);
    WritesSplit(rob, m);
    var w := WritesOf(rob[m])[k];
    assert Writes(rob)[|Writes(rob[..m])| + k] == w;
    NotFree(a, Writes(rob), Committed(retired), w.phys);
  }

  // What a reader finds in the version p of register r.
  ghost predicate Sees(a: Alloc, rob: seq<Instr>, retired: seq<Instr>, n: nat, r: int, p: int)
    requires n <= |rob| && ArchReg(r) && |a.back| == ARCH_REGS
  {
    var w := InFlightWriter(rob, n, r);
    && InFile(a, p) && p !in a.free
    && a.file[p].arch == r
    && a.file[p].producer == YoungestWriter(retired + rob[..n], r)
    && (w >= 0 ==> p in rob[w].dst && (a.file[p].valid <==> rob[w].completed))
    && (w < 0 ==> p == a.back[r] && a.file[p].valid)
  }

  lemma {:induction false} CommittedSeen(a: Alloc, rob: seq<Instr>, retired: seq<Instr>, horizon: int, r: int)
    requires RobInv(a, rob, retired, horizon) && ArchReg(r) && a.back[r] >= 0
    ensures Sees(a, rob, retired, 0, r, a.back[r])
  {
    OpenRobInv(a, rob, retired, horizon);
    assert retired + rob[..0] == retired;
    NotFree(a, Writes(rob), Committed(retired), a.back[r]);
  }

  lemma {:induction false} LastWriterSeen(a: Alloc, rob: seq<Instr>, retired: seq<Instr>, horizon: int, m: nat, r: int)
    requires RobInv(a, rob, retired, horizon) && m < |rob| && ArchReg(r) && rob[m].scheduled && r in rob[m].archDst
    ensures |rob[m].dst| == |rob[m].archDst|
    ensures Sees(a, rob, retired, m + 1, r, Lookup(a.back, Writes(rob[..m + 1]), r))
  {
    assert EntryOk(a, rob, m) by { OpenRobInv(a, rob, retired, horizon); }
    WritesSnoc(rob, m);
    var vs := WritesOf(rob[m]);
    LookupConcat(a.back, Writes(rob[..m]), vs, r);
    YoungestWriterSnoc(retired, rob, m, r);
    var j :| 0 <= j < |rob[m].archDst| && rob[m].archDst[j] == r;
    assert vs[j].arch == r;
    var k :| 0 <= k < |vs| && vs[k].arch == r && Lookup(a.back, Writes(rob[..m + 1]), r) == vs[k].phys;
    WriteTag(a, rob, retired, horizon, m, k);
  }

  lemma {:induction false} NotWrittenSeen(a: Alloc, rob: seq<Instr>, retired: seq<Instr>, horizon: int, m: nat, r: int)
    requires RobInv(a, rob, retired, horizon) && m < |rob| && ArchReg(r) && r !in rob[m].archDst && rob[m].scheduled
    ensures Lookup(a.back, Writes(rob[..m + 1]), r) == Lookup(a.back, Writes(rob[..m]), r)
    ensures forall p :: Sees(a, rob, retired, m, r, p) ==> Sees(a, rob, retired, m + 1, r, p)
  {
    assert EntryOk(a, rob, m) by { OpenRobInv(a, rob, retired, horizon); }
    WritesSnoc(rob, m);
    var vs := WritesOf(rob[m]);
    LookupConcat(a.back, Writes(rob[..m]), vs, r);
    YoungestWriterSnoc(retired, rob, m, r);
    assert forall k :: 0 <= k < |vs| ==> vs[k].arch == rob[m].archDst[k];
  }

  lemma {:induction false} ReaderSees(a: Alloc, rob: seq<Instr>, retired: seq<Instr>, horizon: int, n: nat, r: int)
    requires RobInv(a, rob, retired, horizon) && n <= |rob| && ArchReg(r)
    requires forall i :: 0 <= i < n ==> rob[i].scheduled
    requires Lookup(a.back, Writes(rob[..n]), r) >= 0
    ensures Sees(a, rob, retired, n, r, Lookup(a.back, Writes(rob[..n]), r))
  {
    hide Sees;
    if n == 0 {
      assert Lookup(a.back, Writes(rob[..0]), r) == a.back[r];
      CommittedSeen(a, rob, retired, horizon, r);
    } else if r in rob[n - 1].archDst {
      LastWriterSeen(a, rob, retired, horizon, n - 1, r);
    } else {
      NotWrittenSeen(a, rob, retired, horizon, n - 1, r);
      ReaderSees(a, rob, retired, horizon, n - 1, r);
    }
  }

  lemma {:induction false} YoungestWriterSnoc(retired: seq<Instr>, rob: seq<Instr>, m: nat, r: int)
    requires m < |rob|
    ensures YoungestWriter(retired + rob[..m + 1], r) ==
            if r in rob[m].archDst then rob[m].id else YoungestWriter(retired + rob[..m], r)
  {
    var h := retired + rob[..m + 1];
    assert h[..|h| - 1] == retired + rob[..m];
  }

  // Source k of entry i names the version made by the youngest older writer of
  // that register in the whole program; that version is still allocated; and
  // its valid bit says exactly whether that writer has completed.
  ghost predicate NamesYoungestWriter(a: Alloc, rob: seq<Instr>, retired: seq<Instr>, i: nat, k: nat)
    requires i < |rob| && k < |rob[i].src| && k < |rob[i].archSrc| && |a.back| == ARCH_REGS
  {
    var p, r, w := rob[i].src[k], rob[i].archSrc[k], InFlightWriter(rob, i, rob[i].archSrc[k]);
    && ArchReg(r) && InFile(a, p) && p !in a.free
    && a.file[p].arch == r
    && a.file[p].producer == YoungestWriter(retired + rob[..i], r)
    && (w >= 0 ==> p in rob[w].dst && (a.file[p].valid <==> rob[w].completed))
    && (w < 0 ==> p == a.back[r] && a.file[p].valid)
  }

  lemma {:induction false} SourceNamesYoungestWriter(a: Alloc, rob: seq<Instr>, retired: seq<Instr>, horizon: int, i: nat, k: nat)
    requires RobInv(a, rob, retired, horizon) && i < |rob| && rob[i].scheduled && k < |rob[i].src|
    ensures k < |rob[i].archSrc| && NamesYoungestWriter(a, rob, retired, i, k)
  {
    OpenRobInv(a, rob, retired, horizon);
    assert EntryOk(a, rob, i);
    ReaderSees(a, rob, retired, horizon, i, rob[i].archSrc[k]);
  }

  // Nothing executes before every older instruction it reads from has completed.
  lemma {:induction false} ExecutesAfterProducers(a: Alloc, rob: seq<Instr>, retired: seq<Instr>, horizon: int, i: nat, k: nat)
    requires RobInv(a, rob, retired, horizon) && i < |rob| && rob[i].executed && k < |rob[i].archSrc|
    ensures var w := InFlightWriter(rob, i, rob[i].archSrc[k]); w >= 0 ==> rob[w].completed
  {
    OpenRobInv(a, rob, retired, horizon);
    assert EntryOk(a, rob, i);
    SourceNamesYoungestWriter(a, rob, retired, horizon, i, k);
  }

  // ------------------------------------------------------------------ dispatch

  lemma {:induction false} DispatchInv(a: Alloc, rob: seq<Instr>, retired: seq<Instr>, horizon: int, ins: Instr)
    requires RobInv(a, rob, retired, horizon) && WellNamed(ins) && !ins.scheduled && ins.readyTime == horizon
    ensures RobInv(a, rob + [ins], retired, horizon)
  {
    OpenRobInv(a, rob, retired, horizon);
    var rob' := rob + [ins];
    WritesConcat(rob, [ins]);
    WritesOne(ins);
    assert Writes(rob') == Writes(rob);
    forall i | 0 <= i < |rob'| ensures EntryOk(a, rob', i) {
      if i < |rob| { assert EntryOk(a, rob, i); }
      DispatchEntryOk(a, rob, ins, i);
    }
    assert RobParts(a, rob', retired, horizon);
  }

  lemma {:induction false} DispatchEntryOk(a: Alloc, rob: seq<Instr>, ins: Instr, i: nat)
    requires Shape(a) && WellNamed(ins) && !ins.scheduled && i <= |rob| && (i < |rob| ==> EntryOk(a, rob, i))
    requires !ins.executed
    ensures EntryOk(a, rob + [ins], i)
  {
    assert (rob + [ins])[..i] == rob[..i];
  }

  // ---------------------------------------------------------------- scheduling

  lemma {:induction false} StableTrans(a: Alloc, b: Alloc, d: Alloc, ws: seq<Write>)
    requires Shape(a) && Shape(b) && Shape(d) && Stable(a, b, ws) && Stable(b, d, ws)
    requires forall p :: p in b.free ==> p in a.free
    ensures Stable(a, d, ws)
  {
    forall q, j | 0 <= q < ARCH_REGS && 0 <= j <= |ws| && Lookup(a.back, ws[..j], q) >= 0
      ensures Lookup(d.back, ws[..j], q) == Lookup(a.back, ws[..j], q)
    {
      assert Lookup(b.back, ws[..j], q) == Lookup(a.back, ws[..j], q);
    }
  }

  ghost predicate NamedBy(a: Alloc, ws: seq<Write>, srcs: seq<int>, names: seq<int>)
    requires |a.back| == ARCH_REGS && ArchRegs(srcs)
  {
    |names| == |srcs| && forall k :: 0 <= k < |srcs| ==> names[k] >= 0 && names[k] == Lookup(a.back, ws, srcs[k])
  }

  lemma {:induction false} NamedStays(a: Alloc, b: Alloc, ws: seq<Write>, srcs: seq<int>, names: seq<int>)
    requires Shape(a) && Shape(b) && ArchRegs(srcs) && Stable(a, b, ws) && NamedBy(a, ws, srcs, names)
    ensures NamedBy(b, ws, srcs, names)
  {
    assert ws[..|ws|] == ws;
    forall k | 0 <= k < |srcs| ensures names[k] == Lookup(b.back, ws, srcs[k]) {
      assert Lookup(a.back, ws[..|ws|], srcs[k]) >= 0;
    }
  }

  // One more source, after the sources srcs[..n] got their names.
  lemma {:induction false} RenameOneSource(a: Alloc, b: Alloc, ws: seq<Write>, c: seq<nat>, srcs: seq<int>, n: nat, names: seq<int>)
    requires Shape(a) && ArchRegs(srcs) && n < |srcs| && AllocInv(b, ws, c) && Stable(a, b, ws)
    requires (forall p :: p in b.free ==> p in a.free) && NamedBy(b, ws, srcs[..n], names)
    requires b.front[srcs[n]] < 0 ==> b.free != []
    ensures var (d, p) := RenameSrc(b, srcs[n]);
            && AllocInv(d, ws, c) && Stable(a, d, ws)
            && (forall p :: p in d.free ==> p in a.free)
            && NamedBy(d, ws, srcs[..n + 1], names + [p])
  {
    var (d, p) := RenameSrc(b, srcs[n]);
    RenameSrcInv(b, ws, c, srcs[n]);
    StableTrans(a, b, d, ws);
    NamedStays(b, d, ws, srcs[..n], names);
  }

  lemma {:induction false} RenameSourcesInv(a: Alloc, ws: seq<Write>, c: seq<nat>, srcs: seq<int>)
    requires AllocInv(a, ws, c) && ArchRegs(srcs) && Unmapped(a.front, srcs) <= |a.free|
    ensures var (b, names) := RenameSources(a, srcs);
            && AllocInv(b, ws, c) && Stable(a, b, ws)
            && (forall p :: p in b.free ==> p in a.free)
            && NamedBy(b, ws, srcs, names)
  {
    if srcs != [] {
      assert Shape(a);
      hide AllocInv, Stable, NamedBy, RenameSrc, Shape;
      var n := |srcs| - 1;
      RenameSourcesInv(a, ws, c, srcs[..n]);
      var (b, names) := RenameSources(a, srcs[..n]);
      RenameOneSource(a, b, ws, c, srcs, n, names);
      assert srcs[..n + 1] == srcs;
    }
  }

  function NewWrites(dsts: seq<int>, names: seq<int>, id: nat): (ws: seq<Write>)
    requires |dsts| == |names|
    ensures |ws| == |dsts|
    ensures forall k :: 0 <= k < |dsts| ==> ws[k] == Write(dsts[k], names[k], id, false)
  {
    if dsts == [] then []
    else NewWrites(dsts[..|dsts| - 1], names[..|dsts| - 1], id) + [Write(dsts[|dsts| - 1], names[|dsts| - 1], id, false)]
  }

  lemma {:induction false} RenameDestsInv(a: Alloc, ws: seq<Write>, c: seq<nat>, dsts: seq<int>, id: nat)
    requires AllocInv(a, ws, c) && ArchRegs(dsts) && |dsts| <= |a.free|
    ensures var (b, names) := RenameDests(a, dsts, id);
            && AllocInv(b, ws + NewWrites(dsts, names, id), c)
            && b.back == a.back
            && (forall p :: InFile(a, p) && p !in a.free ==> b.file[p] == a.file[p] && p !in b.free)
  {
    if dsts == [] {
      assert ws + [] == ws;
    } else {
      var n := |dsts| - 1;
      var (b1, names1) := RenameDests(a, dsts[..n], id);
      var (b, p) := RenameDest(b1, dsts[n], id);
      var vs1 := NewWrites(dsts[..n], names1, id);
      RenameDestsInv(a, ws, c, dsts[..n], id);
      RenameDestInv(b1, ws + vs1, c, dsts[n], id);
      var names := names1 + [p];
      assert RenameDests(a, dsts, id) == (b, names);
      assert names[..n] == names1;
      ConcatAssoc(ws, vs1, [Write(dsts[n], p, id, false)]);
    }
  }

  lemma {:induction false} InOrderSchedule(rob: seq<Instr>, i: nat, ins: Instr, horizon: int)
    requires InOrder(rob, horizon) && i < |rob| && ins.scheduled && forall j :: 0 <= j < i ==> rob[j].scheduled
    ensures InOrder(rob[i := ins], horizon)
  {
  }

  // Renaming one instruction appends its writes, names its sources by what the
  // earlier writes say, and disturbs nothing an older instruction reads.
  lemma {:induction false} RenameEntry(a: Alloc, ws: seq<Write>, c: seq<nat>, ins: Instr)
    requires AllocInv(a, ws, c) && WellNamed(ins) && !ins.scheduled && !ins.completed
    requires RegsInRange(ins) && Need(a, ins) <= |a.free|
    ensures var (b, ins') := DoScheduling(a, ins);
            && WellNamed(ins') && ins'.scheduled && ins'.executed == ins.executed
            && AllocInv(b, ws + WritesOf(ins'), c) && Stable(a, b, ws) && SourcesRight(b, ws, ins')
  {
    hide AllocInv, RenameSources, RenameDests, Shape;
    AllocShape(a, ws, c);
    var (a1, srcs) := RenameSources(a, ins.src);
    RenameSourcesInv(a, ws, c, ins.src);
    AllocShape(a1, ws, c);
    var (b, dsts) := RenameDests(a1, ins.dst, ins.id);
    RenameDestsInv(a1, ws, c, ins.dst, ins.id);
    var ins' := ins.(src := srcs, dst := dsts, scheduled := true);
    assert DoScheduling(a, ins) == (b, ins');
    assert WritesOf(ins') == NewWrites(ins.dst, dsts, ins.id);
    assert NamedBy(a1, ws, ins.src, srcs);
  }

  lemma {:induction false} TailUnscheduled(rob: seq<Instr>, i: nat)
    requires i < |rob| && forall j :: i <= j < |rob| ==> !rob[j].scheduled
    ensures Writes(rob) == Writes(rob[..i])
  {
    WritesConcat(rob[..i], rob[i..]);
    assert rob == rob[..i] + rob[i..];
    NoWrites(rob[i..]);
  }

  lemma {:induction false} WritesAfterSchedule(rob: seq<Instr>, i: nat, ins: Instr)
    requires i < |rob| && forall j :: i < j < |rob| ==> !rob[j].scheduled
    ensures Writes(rob[i := ins]) == Writes(rob[..i]) + WritesOf(ins)
  {
    var rob' := rob[i := ins];
    WritesSplit(rob', i);
    NoWrites(rob'[i + 1..]);
    assert rob'[..i] == rob[..i];
  }

  // Renaming entry i, when everything before it is renamed and nothing after it.
  lemma {:induction false} ScheduleOneInv(a: Alloc, rob: seq<Instr>, retired: seq<Instr>, horizon: int, i: nat)
    requires RobInv(a, rob, retired, horizon) && i < |rob| && RegsInRange(rob[i])
    requires !rob[i].scheduled && (forall j :: 0 <= j < i ==> rob[j].scheduled)
    requires Need(a, rob[i]) <= |a.free|
    ensures var r := DoScheduling(a, rob[i]); RobInv(r.0, rob[i := r.1], retired, horizon)
  {
    OpenRobInv(a, rob, retired, horizon);
    assert EntryOk(a, rob, i);
    TailUnscheduled(rob, i);
    var ws, c := Writes(rob[..i]), Committed(retired);
    RenameEntry(a, ws, c, rob[i]);
    var (b, ins) := DoScheduling(a, rob[i]);
    WritesAfterSchedule(rob, i, ins);
    InOrderSchedule(rob, i, ins, horizon);
    var rob' := rob[i := ins];
    forall j | 0 <= j < |rob'| ensures EntryOk(b, rob', j) {
      assert EntryOk(a, rob, j);
      if j < i { OlderEntryStays(a, b, rob, i, j, c); }
      if j <= i { assert rob'[..j] == rob[..j]; }
    }
  }

  // One older renamed entry, across the renaming of entry i.
  lemma {:induction false} OlderEntryStays(a: Alloc, b: Alloc, rob: seq<Instr>, i: nat, j: nat, c: seq<nat>)
    requires j < i < |rob| && AllocInv(a, Writes(rob[..i]), c) && rob[j].scheduled && EntryOk(a, rob, j)
    requires Shape(b) && Stable(a, b, Writes(rob[..i]))
    ensures EntryOk(b, rob, j)
  {
    var ws := Writes(rob[..i]);
    var vs := Writes(rob[..j]);
    assert rob[..i] == rob[..j] + rob[j..i];
    WritesConcat(rob[..j], rob[j..i]);
    assert ws[..|vs|] == vs;
    forall k | 0 <= k < |rob[j].src|
      ensures rob[j].src[k] == Lookup(b.back, vs, rob[j].archSrc[k])
      ensures a.file[rob[j].src[k]] == b.file[rob[j].src[k]]
    {
      var p := rob[j].src[k];
      assert Lookup(a.back, ws[..|vs|], rob[j].archSrc[k]) == p;
      LookupNamed(a.back, vs, rob[j].archSrc[k]);
      if m :| 0 <= m < |vs| && vs[m].phys == p { assert ws[m] == vs[m]; }
      NotFree(a, ws, c, p);
    }
  }

  lemma {:induction false} DestsInFile(a: Alloc, rob: seq<Instr>, retired: seq<Instr>, k: nat)
    requires Shape(a) && AllocInv(a, Writes(rob), Committed(retired)) && k < |rob| && rob[k].scheduled && WellNamed(rob[k])
    ensures AllInFile(a, rob[k].dst)
  {
    WritesSplit(rob, k);
    var off := |Writes(rob[..k])|;
    forall m | 0 <= m < |rob[k].dst| ensures 0 <= rob[k].dst[m] < |a.file| {
      assert Writes(rob)[off + m] == WritesOf(rob[k])[m];
    }
  }

  lemma {:induction false} RegsFromInv(a: Alloc, rob: seq<Instr>, retired: seq<Instr>, horizon: int)
    requires RobInv(a, rob, retired, horizon)
    ensures Shape(a) && |a.file| <= ARCH_REGS
    ensures forall k :: 0 <= k < |rob| ==> RegsInRange(rob[k])
    ensures forall k :: 0 <= k < |rob| && rob[k].scheduled ==> AllInFile(a, rob[k].dst) && AllInFile(a, rob[k].src)
  {
    OpenRobInv(a, rob, retired, horizon);
    forall k | 0 <= k < |rob|
      ensures RegsInRange(rob[k]) && (rob[k].scheduled ==> AllInFile(a, rob[k].dst) && AllInFile(a, rob[k].src))
    {
      assert EntryOk(a, rob, k);
      if rob[k].scheduled { DestsInFile(a, rob, retired, k); }
    }
  }

  // Everything before entry i is renamed or not ready yet.
  predicate Passed(rob: seq<Instr>, i: nat, now: int)
    requires i <= |rob|
  {
    forall j :: 0 <= j < i ==> rob[j].scheduled || rob[j].readyTime > now
  }

  // One turn of the loop. An entry that is not ready holds back every younger
  // one, because ready times do not decrease; so renaming happens in order.
  lemma {:induction false} ScheduleStepInv(a: Alloc, rob: seq<Instr>, i: nat, now: int, retired: seq<Instr>, horizon: int)
    requires RobInv(a, rob, retired, horizon) && i < |rob| && RegsInRange(rob[i]) && Passed(rob, i, now)
    requires Need(a, rob[i]) <= |a.free|
    ensures var (a1, rob1) := ScheduleStep(a, rob, i, now);
            RobInv(a1, rob1, retired, horizon) && Passed(rob1, i + 1, now)
  {
    OpenRobInv(a, rob, retired, horizon);
    if !rob[i].scheduled && rob[i].readyTime <= now {
      ScheduleOneInv(a, rob, retired, horizon, i);
    }
  }

  lemma {:induction false} ScheduleFromInv(a: Alloc, rob: seq<Instr>, i: nat, bw: nat, now: int,
                                           retired: seq<Instr>, horizon: int)
    requires RobInv(a, rob, retired, horizon) && i <= |rob| && Passed(rob, i, now)
    requires forall k :: 0 <= k < |rob| ==> RegsInRange(rob[k])
    ensures var r := ScheduleFrom(a, rob, i, bw, now); RobInv(r.0, r.1, retired, horizon)
    decreases |rob| - i
  {
    hide RobInv, Passed, RegsInRange, AllInFile, ScheduleStep, Need, Shape;
    RegsFromInv(a, rob, retired, horizon);
    if !(i == |rob| || bw == 0 || |a.free| < Need(a, rob[i])) {
      ScheduleStepInv(a, rob, i, now, retired, horizon);
      var (a1, rob1) := ScheduleStep(a, rob, i, now);
      RegsFromInv(a1, rob1, retired, horizon);
      ScheduleFromInv(a1, rob1, i + 1, if rob1[i].executed then bw else bw - 1, now, retired, horizon);
    }
  }

  // ------------------------------------------------- execution and completion

  // Changes that touch neither names nor completion, and only ready times of
  // renamed entries, keep the invariant.
  lemma {:induction false} FlagsInv(a: Alloc, rob: seq<Instr>, rob': seq<Instr>, retired: seq<Instr>, horizon: int)
    requires RobInv(a, rob, retired, horizon) && |rob'| == |rob|
    requires forall i :: 0 <= i < |rob| ==> SameNames(rob[i], rob'[i])
    requires forall i :: 0 <= i < |rob| && !rob[i].scheduled ==>
               rob'[i].readyTime == rob[i].readyTime && !rob'[i].executed
    requires forall i :: 0 <= i < |rob| && rob[i].executed ==> rob'[i].executed
    requires forall i :: 0 <= i < |rob| && rob'[i].executed && !rob[i].executed ==> SourcesValid(a, rob[i])
    ensures RobInv(a, rob', retired, horizon)
  {
    OpenRobInv(a, rob, retired, horizon);
    WritesSame(rob, rob');
    forall i | 0 <= i < |rob'| ensures EntryOk(a, rob', i) {
      assert SameNames(rob[i], rob'[i]) && EntryOk(a, rob, i);
      WritesSame(rob[..i], rob'[..i]);
    }
    forall i, j | 0 <= i < j < |rob'| && rob'[j].scheduled ensures rob'[i].scheduled {
      assert SameNames(rob[i], rob'[i]) && SameNames(rob[j], rob'[j]);
    }
    forall i, j | 0 <= i < j < |rob'| && !rob'[i].scheduled ensures rob'[i].readyTime <= rob'[j].readyTime {
      assert SameNames(rob[i], rob'[i]) && SameNames(rob[j], rob'[j]);
    }
  }

  function MarkDone(ws: seq<Write>, k: nat): (vs: seq<Write>)
    requires k <= |ws|
    ensures |vs| == |ws|
  {
    seq(|ws|, i requires 0 <= i < |ws| => if i < k then ws[i].(done := true) else ws[i])
  }

  lemma {:induction false} CompleteDestsInv(a: Alloc, pre: seq<Write>, mid: seq<Write>, post: seq<Write>, c: seq<nat>, k: nat)
    requires k <= |mid| && AllocInv(a, pre + mid + post, c)
    requires AllInFile(a, PhysOf(mid))
    ensures var b := CompleteDests(a, PhysOf(mid)[..k]);
            && AllocInv(b, pre + MarkDone(mid, k) + post, c) && b.back == a.back && b.free == a.free
            && (forall p :: InFile(a, p) && a.file[p].valid ==> b.file[p].valid)
  {
    var dsts := PhysOf(mid)[..k];
    if k == 0 {
      assert MarkDone(mid, 0) == mid;
    } else {
      CompleteDestsInv(a, pre, mid, post, c, k - 1);
      assert dsts[..k - 1] == PhysOf(mid)[..k - 1];
      var b := CompleteDests(a, dsts[..k - 1]);
      var ws := pre + MarkDone(mid, k - 1) + post;
      var at := |pre| + k - 1;
      assert ws[at] == MarkDone(mid, k - 1)[k - 1] == mid[k - 1];
      CompleteInv(b, ws, c, at);
      assert ws[at := ws[at].(done := true)] == pre + MarkDone(mid, k) + post;
    }
  }

  function MarkComplete(rob: seq<Instr>, i: nat): (r: seq<Instr>)
    requires i < |rob|
    ensures |r| == |rob|
  {
    rob[i := rob[i].(completed := true)]
  }

  lemma {:induction false} CompleteAllocInv(a: Alloc, rob: seq<Instr>, c: seq<nat>, i: nat)
    requires i < |rob| && rob[i].scheduled && |rob[i].dst| == |rob[i].archDst|
    requires AllocInv(a, Writes(rob), c) && AllInFile(a, rob[i].dst)
    ensures var b := CompleteDests(a, rob[i].dst);
            && AllocInv(b, Writes(MarkComplete(rob, i)), c) && b.back == a.back
            && (forall p :: InFile(a, p) && a.file[p].valid ==> b.file[p].valid)
  {
    var ins, rob' := rob[i], MarkComplete(rob, i);
    var pre, mid, post := Writes(rob[..i]), WritesOf(ins), Writes(rob[i + 1..]);
    WritesSplit(rob, i);
    WritesSplit(rob', i);
    assert rob'[..i] == rob[..i] && rob'[i + 1..] == rob[i + 1..];
    assert PhysOf(mid) == ins.dst;
    assert PhysOf(mid)[..|mid|] == ins.dst;
    CompleteDestsInv(a, pre, mid, post, c, |mid|);
    assert MarkDone(mid, |mid|) == WritesOf(rob'[i]);
  }

  lemma {:induction false} CompleteKeepsEntry(a: Alloc, rob: seq<Instr>, c: seq<nat>, i: nat, j: nat)
    requires Shape(a) && i < |rob| && j < |rob| && rob[i].executed && EntryOk(a, rob, i) && EntryOk(a, rob, j)
    requires AllocInv(a, Writes(rob), c) && AllInFile(a, rob[i].dst)
    ensures EntryOk(CompleteDests(a, rob[i].dst), MarkComplete(rob, i), j)
  {
    hide Writes, AllocInv, CompleteDests;
    CompleteAllocInv(a, rob, c, i);
    SameLookups(a.back, rob, i, j);
  }

  lemma {:induction false} CompleteInOrder(rob: seq<Instr>, i: nat, horizon: int)
    requires i < |rob| && InOrder(rob, horizon)
    ensures InOrder(MarkComplete(rob, i), horizon)
  {
  }

  // Completing entry i makes its registers valid and nothing else.
  lemma {:induction false} CompleteEntryInv(a: Alloc, rob: seq<Instr>, retired: seq<Instr>, horizon: int, i: nat)
    requires RobInv(a, rob, retired, horizon) && i < |rob| && rob[i].executed && AllInFile(a, rob[i].dst)
    ensures RobInv(CompleteDests(a, rob[i].dst), MarkComplete(rob, i), retired, horizon)
  {
    hide Writes, Committed, AllocInv, EntryOk, InOrder;
    OpenRobInv(a, rob, retired, horizon);
    assert EntryOk(a, rob, i);
    OkWellNamed(a, rob, i);
    CompleteAllocInv(a, rob, Committed(retired), i);
    CompleteInOrder(rob, i, horizon);
    forall j | 0 <= j < |rob| ensures EntryOk(CompleteDests(a, rob[i].dst), MarkComplete(rob, i), j) {
      assert EntryOk(a, rob, j);
      CompleteKeepsEntry(a, rob, Committed(retired), i, j);
    }
  }

  lemma {:induction false} SameLookups(back: seq<int>, rob: seq<Instr>, i: nat, j: nat)
    requires i < |rob| && j <= |rob|
    ensures forall r :: 0 <= r < |back| ==>
              Lookup(back, Writes(MarkComplete(rob, i)[..j]), r) == Lookup(back, Writes(rob[..j]), r)
  {
    var x, y := rob[..j], MarkComplete(rob, i)[..j];
    SamePhys(x, y);
    forall r | 0 <= r < |back| ensures Lookup(back, Writes(y), r) == Lookup(back, Writes(x), r) {
      LookupSameNames(back, Writes(y), Writes(x), r);
    }
  }

  lemma {:induction false} SamePhys(x: seq<Instr>, y: seq<Instr>)
    requires |x| == |y|
    requires forall i :: 0 <= i < |x| ==> y[i] == x[i] || y[i] == x[i].(completed := true)
    ensures |Writes(x)| == |Writes(y)|
    ensures forall k :: 0 <= k < |Writes(x)| ==>
              Writes(x)[k].arch == Writes(y)[k].arch && Writes(x)[k].phys == Writes(y)[k].phys
  {
    hide WritesOf;
    if x != [] {
      SamePhys(x[1..], y[1..]);
      SamePhysOne(x[0], y[0]);
    }
  }

  lemma {:induction false} SamePhysOne(x: Instr, y: Instr)
    requires y == x || y == x.(completed := true)
    ensures |WritesOf(x)| == |WritesOf(y)|
    ensures forall k :: 0 <= k < |WritesOf(x)| ==>
              WritesOf(x)[k].arch == WritesOf(y)[k].arch && WritesOf(x)[k].phys == WritesOf(y)[k].phys
  {
  }

  // ---------------------------------------------------------------- retirement

  function CommitBack(back: seq<int>, ws: seq<Write>): (r: seq<int>)
    requires forall k :: 0 <= k < |ws| ==> 0 <= ws[k].arch < |back|
    ensures |r| == |back|
  {
    if ws == [] then back
    else CommitBack(back, ws[..|ws| - 1])[ws[|ws| - 1].arch := ws[|ws| - 1].phys]
  }

  function CommitIds(c: seq<nat>, ws: seq<Write>): (r: seq<nat>)
    requires forall k :: 0 <= k < |ws| ==> 0 <= ws[k].arch < |c|
    ensures |r| == |c|
  {
    if ws == [] then c
    else CommitIds(c, ws[..|ws| - 1])[ws[|ws| - 1].arch := ws[|ws| - 1].producer]
  }

  lemma {:induction false} LookupCommit(back: seq<int>, ws: seq<Write>, vs: seq<Write>, r: int)
    requires 0 <= r < |back|
    requires forall k :: 0 <= k < |ws| ==> 0 <= ws[k].arch < |back|
    ensures Lookup(CommitBack(back, ws), vs, r) == Lookup(back, ws + vs, r)
  {
    if ws == [] {
      assert ws + vs == vs;
    } else {
      var n := |ws| - 1;
      LookupCommit(back, ws[..n], [ws[n]] + vs, r);
      assert ws[..n] + ([ws[n]] + vs) == ws + vs;
      LookupRetire(CommitBack(back, ws[..n]), [ws[n]] + vs, r);
      assert ([ws[n]] + vs)[1..] == vs;
    }
  }

  // Retiring the oldest write of mid[k..] + post.
  lemma {:induction false} RetireOneDest(a: Alloc, mid: seq<Write>, post: seq<Write>, c: seq<nat>, k: nat)
    requires k < |mid| && AllocInv(a, mid[k..] + post, c) && mid[k].done && 0 <= mid[k].arch < |c|
    ensures Shape(a) && InFile(a, mid[k].phys)
    ensures var b := RetireDest(a, mid[k].phys);
            && AllocInv(b, mid[k + 1..] + post, c[mid[k].arch := mid[k].producer])
            && mid[k].arch < |a.back| && b.back == a.back[mid[k].arch := mid[k].phys]
            && (forall p :: p in a.free ==> p in b.free)
            && (forall p :: InFile(a, p) && p !in b.free ==> b.file[p] == a.file[p])
  {
    var ws := mid[k..] + post;
    assert ws[0] == mid[k] && ws[1..] == mid[k + 1..] + post;
    RetireInv(a, ws, c);
  }

  lemma {:induction false} AllocShape(a: Alloc, ws: seq<Write>, c: seq<nat>)
    requires AllocInv(a, ws, c)
    ensures Shape(a) && |c| == ARCH_REGS && |a.back| == ARCH_REGS
  {
  }

  lemma {:induction false} RetireDestsInv(a: Alloc, mid: seq<Write>, post: seq<Write>, c: seq<nat>, k: nat)
    requires k <= |mid| && AllocInv(a, mid + post, c) && AllInFile(a, PhysOf(mid))
    requires forall m :: 0 <= m < |mid| ==> mid[m].done
    requires forall m :: 0 <= m < |mid| ==> 0 <= mid[m].arch < ARCH_REGS
    ensures var b := RetireDests(a, PhysOf(mid)[..k]);
            && AllocInv(b, mid[k..] + post, CommitIds(c, mid[..k]))
            && b.back == CommitBack(a.back, mid[..k])
            && (forall p :: p in a.free ==> p in b.free)
            && (forall p :: InFile(a, p) && p !in b.free ==> b.file[p] == a.file[p])
  {
    hide AllocInv, Shape, RetireDest;
    AllocShape(a, mid + post, c);
    var dsts := PhysOf(mid)[..k];
    if k == 0 {
      assert mid[0..] + post == mid + post;
    } else {
      RetireDestsInv(a, mid, post, c, k - 1);
      assert dsts[..k - 1] == PhysOf(mid)[..k - 1];
      assert mid[..k][..k - 1] == mid[..k - 1];
      RetireOneDest(RetireDests(a, dsts[..k - 1]), mid, post, CommitIds(c, mid[..k - 1]), k - 1);
    }
  }

  lemma {:induction false} CommitIdsOf(c: seq<nat>, ws: seq<Write>, id: nat, r: int)
    requires 0 <= r < |c|
    requires forall k :: 0 <= k < |ws| ==> 0 <= ws[k].arch < |c| && ws[k].producer == id
    ensures CommitIds(c, ws)[r] == if exists k :: 0 <= k < |ws| && ws[k].arch == r then id else c[r]
  {
    if ws != [] {
      var n := |ws| - 1;
      CommitIdsOf(c, ws[..n], id, r);
      if k :| 0 <= k < |ws| && ws[k].arch == r && ws[n].arch != r { assert ws[..n][k].arch == r; }
    }
  }

  lemma {:induction false} CommittedStep(retired: seq<Instr>, ins: Instr)
    requires WellNamed(ins) && ins.scheduled
    ensures forall k :: 0 <= k < |WritesOf(ins)| ==> 0 <= WritesOf(ins)[k].arch < ARCH_REGS
    ensures CommitIds(Committed(retired), WritesOf(ins)) == Committed(retired + [ins])
  {
    var c, ws := Committed(retired), WritesOf(ins);
    assert (retired + [ins])[..|retired|] == retired;
    forall r | 0 <= r < ARCH_REGS ensures CommitIds(c, ws)[r] == Committed(retired + [ins])[r] {
      CommitIdsOf(c, ws, ins.id, r);
      if r in ins.archDst {
        var k :| 0 <= k < |ins.archDst| && ins.archDst[k] == r;
        assert ws[k].arch == r;
      }
    }
  }

  lemma {:induction false} RetireAllocInv(a: Alloc, rob: seq<Instr>, retired: seq<Instr>)
    requires rob != [] && WellNamed(rob[0]) && rob[0].completed
    requires AllocInv(a, Writes(rob), Committed(retired)) && AllInFile(a, rob[0].dst)
    ensures forall k :: 0 <= k < |WritesOf(rob[0])| ==> 0 <= WritesOf(rob[0])[k].arch < |a.back|
    ensures var b := RetireDests(a, rob[0].dst);
            && AllocInv(b, Writes(rob[1..]), Committed(retired + [rob[0]]))
            && b.back == CommitBack(a.back, WritesOf(rob[0]))
            && (forall p :: InFile(a, p) && p !in b.free ==> b.file[p] == a.file[p])
  {
    var ins := rob[0];
    var mid, post := WritesOf(ins), Writes(rob[1..]);
    assert Writes(rob) == mid + post;
    assert PhysOf(mid) == ins.dst && PhysOf(mid)[..|mid|] == ins.dst && mid[..|mid|] == mid;
    CommittedStep(retired, ins);
    RetireDestsInv(a, mid, post, Committed(retired), |mid|);
    assert mid[|mid|..] + post == post;
  }

  lemma {:induction false} RetireKeepsEntry(a: Alloc, rob: seq<Instr>, retired: seq<Instr>, j: nat)
    requires Shape(a) && j + 1 < |rob| && rob[0].completed && EntryOk(a, rob, 0) && EntryOk(a, rob, j + 1)
    requires AllocInv(a, Writes(rob), Committed(retired)) && AllInFile(a, rob[0].dst)
    ensures EntryOk(RetireDests(a, rob[0].dst), rob[1..], j)
  {
    hide Writes, Committed, AllocInv, SourcesRight, RetireDests, CommitBack;
    var b := RetireDests(a, rob[0].dst);
    RetireAllocInv(a, rob, retired);
    if rob[j + 1].scheduled {
      SourcesAfterRetire(a, b, rob, j);
      SourcesNotFree(b, rob[1..], Committed(retired + [rob[0]]), j);
    }
  }

  // Retiring the oldest instruction frees only versions that no remaining
  // instruction names.
  lemma {:induction false} RetireEntryInv(a: Alloc, rob: seq<Instr>, retired: seq<Instr>, horizon: int)
    requires RobInv(a, rob, retired, horizon) && rob != [] && rob[0].completed && AllInFile(a, rob[0].dst)
    ensures RobInv(RetireDests(a, rob[0].dst), rob[1..], retired + [rob[0]], horizon)
  {
    hide Writes, Committed, AllocInv, EntryOk, RetireDests, InOrder;
    OpenRobInv(a, rob, retired, horizon);
    assert EntryOk(a, rob, 0);
    OkWellNamed(a, rob, 0);
    RetireAllocInv(a, rob, retired);
    RetireInOrder(rob, horizon);
    forall j | 0 <= j < |rob[1..]| ensures EntryOk(RetireDests(a, rob[0].dst), rob[1..], j) {
      assert EntryOk(a, rob, j + 1);
      RetireKeepsEntry(a, rob, retired, j);
    }
  }

  lemma {:induction false} OkWellNamed(a: Alloc, rob: seq<Instr>, i: nat)
    requires Shape(a) && i < |rob| && EntryOk(a, rob, i)
    ensures WellNamed(rob[i])
  {
  }

  lemma {:induction false} RetireInOrder(rob: seq<Instr>, horizon: int)
    requires rob != [] && InOrder(rob, horizon)
    ensures InOrder(rob[1..], horizon)
  {
  }

  lemma {:induction false} SourcesAfterRetire(a: Alloc, b: Alloc, rob: seq<Instr>, j: nat)
    requires Shape(a) && Shape(b) && |b.file| == |a.file| && j + 1 < |rob| && WellNamed(rob[j + 1])
    requires forall k :: 0 <= k < |WritesOf(rob[0])| ==> 0 <= WritesOf(rob[0])[k].arch < |a.back|
    requires b.back == CommitBack(a.back, WritesOf(rob[0])) && SourcesRight(a, Writes(rob[..j + 1]), rob[j + 1])
    ensures SourcesRight(b, Writes(rob[1..][..j]), rob[j + 1])
  {
    var x, ins := rob[1..][..j], rob[j + 1];
    assert rob[..j + 1] == [rob[0]] + x;
    WritesConcat([rob[0]], x);
    WritesOne(rob[0]);
    forall k | 0 <= k < |ins.src| ensures ins.src[k] == Lookup(b.back, Writes(x), ins.archSrc[k]) {
      LookupCommit(a.back, WritesOf(rob[0]), Writes(x), ins.archSrc[k]);
    }
  }

  lemma {:induction false} SourcesNotFree(a: Alloc, rob: seq<Instr>, c: seq<nat>, j: nat)
    requires j < |rob| && WellNamed(rob[j]) && AllocInv(a, Writes(rob), c) && SourcesRight(a, Writes(rob[..j]), rob[j])
    ensures forall k :: 0 <= k < |rob[j].src| ==> rob[j].src[k] !in a.free
  {
    var vs := Writes(rob[..j]);
    assert rob == rob[..j] + rob[j..];
    WritesConcat(rob[..j], rob[j..]);
    forall k | 0 <= k < |rob[j].src| ensures rob[j].src[k] !in a.free {
      LookupNamed(a.back, vs, rob[j].archSrc[k]);
      if m :| 0 <= m < |vs| && vs[m].phys == rob[j].src[k] { assert Writes(rob)[m] == vs[m]; }
      NotFree(a, Writes(rob), c, rob[j].src[k]);
    }
  }

  // ------------------------------------------------------ the size of the file

  // Register 0 written k times, with no retirement in between.
  function WriteOften(a: Alloc, k: nat): (r: Alloc)
    requires Shape(a) && k <= |a.free|
    ensures Shape(r) && |r.file| == |a.file| && r.free == a.free[k..]
    ensures r.front[0] == if k == 0 then a.front[0] else a.free[k - 1]
  {
    if k == 0 then a else RenameDest(WriteOften(a, k - 1), 0, k).0
  }

  // In a file larger than the table some register is named by a number the table
  // does not have, and the guard of the scheduler looks that number up.
  lemma {:induction false} LargeFileLeavesTable(n: nat, reader: Instr)
    requires n > ARCH_REGS && reader.src == [0] && reader.dst == []
    ensures Shape(Initial(n)) && |Initial(n).free| == n
    ensures var a := WriteOften(Initial(n), ARCH_REGS + 1);
            && RegsInRange(reader) && Need(a, reader) <= |a.free|
            && DoScheduling(a, reader).1.src == [ARCH_REGS]
            && !RegsInRange(DoScheduling(a, reader).1)
  {
    InitialInv(n);
    var a := WriteOften(Initial(n), ARCH_REGS + 1);
    assert reader.src[..0] == [];
    assert RenameSources(a, []) == (a, []);
    assert a.front[0] == Initial(n).free[ARCH_REGS] == ARCH_REGS;
    assert RenameSources(a, reader.src).1 == [] + [ARCH_REGS];
    assert DoScheduling(a, reader).1.src[0] == ARCH_REGS;
  }

  // The guard stays inside the table exactly for files that are no larger.
  lemma {:induction false} NamesFitTable(n: nat)
    ensures n <= ARCH_REGS <==>
              forall a, ins :: Shape(a) && |a.file| == n && RegsInRange(ins) && Need(a, ins) <= |a.free| ==>
                RegsInRange(DoScheduling(a, ins).1)
  {
    if n > ARCH_REGS {
      var reader := Instr(0, [0], [], [0], [], [], [], 0, false, false, false, false, false, 0);
      LargeFileLeavesTable(n, reader);
    } else {
      forall a, ins | Shape(a) && |a.file| == n && RegsInRange(ins) && Need(a, ins) <= |a.free|
        ensures RegsInRange(DoScheduling(a, ins).1)
      {
        assert AllInFile(a, DoScheduling(a, ins).1.src);
      }
    }
  }
}
