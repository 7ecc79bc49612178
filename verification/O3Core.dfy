// One cycle of the out-of-order core, step by step as O3_CPU::operate performs
// it (champsim/src/ooo_cpu.cc:37-53), and what every cycle keeps true.
module O3Core {
  import opened Prelude
  import opened Pipeline
  import opened RegisterAllocation
  import opened ReorderBuffer
  import opened LoadStoreQueue
  import opened LoadStoreInvariant
  import opened FrontEnd

  datatype Config = Config(
    fetchWidth: nat, decodeWidth: nat, dibInorderWidth: nat, dispatchWidth: nat, schedulerSize: nat,
    execWidth: nat, retireWidth: nat, lqWidth: nat, sqWidth: nat, l1dBandwidth: nat,
    ifetchSize: nat, dibHitSize: nat, decodeSize: nat, dispatchSize: nat, robSize: nat, sqSize: nat,
    dibHitLatency: nat, decodeLatency: nat, dispatchLatency: nat, schedulingLatency: nat, execLatency: nat,
    blockBytes: BlockBytes)

  // `retired`, `written` and `trace` are histories: the instructions that have
  // retired, the stores the L1D has accepted, and the program fetched so far.
  datatype Core = Core(
    cfg: Config, now: int, warmup: bool, fe: Buffers, rob: seq<Instr>, alloc: Alloc,
    lq: LoadQueue, sq: seq<Store>,
    retired: seq<Instr>, written: seq<StoreKey>, trace: seq<Op>, nextId: nat)

  // An instruction as the trace reader delivers it; ids increase, possibly with gaps.
  type ArchId = r: int | 0 <= r < ARCH_REGS
  datatype TraceInstr = TraceInstr(gap: nat, src: seq<ArchId>, dst: seq<ArchId>, srcMem: seq<Addr>, dstMem: seq<Addr>)

  // What the rest of the machine does to the core in one cycle.
  datatype Env = Env(
    dt: nat, endWarmup: bool, fetched: seq<TraceInstr>, dibHits: set<nat>, l1iReturns: set<nat>,
    l1dReturns: seq<nat>, storeRoom: nat, loadRoom: nat)

  function Latency(s: Core, latency: nat): nat {
    if s.warmup then 0 else latency
  }

  function Horizon(s: Core): int {
    s.now + Latency(s, s.cfg.schedulingLatency)
  }

  function LsqOf(s: Core): Lsq {
    Lsq(s.rob, s.lq, s.sq)
  }

  // Everything in flight in program order, oldest first.
  function Flow(s: Core): seq<Instr> {
    s.retired + s.rob + Order(s.fe)
  }

  // ----------------------------------------------------------------- invariant

  predicate Fresh(ins: Instr) {
    WellNamed(ins) && !ins.scheduled && ins.memDone == 0
  }

  predicate AllFresh(xs: seq<Instr>) {
    forall i :: 0 <= i < |xs| ==> Fresh(xs[i])
  }

  predicate FrontFresh(b: Buffers) {
    AllFresh(b.ifetch) && AllFresh(b.dibHit) && AllFresh(b.decode) && AllFresh(b.dispatch)
  }

  predicate Sizes(s: Core) {
    && |s.fe.ifetch| <= s.cfg.ifetchSize && |s.fe.dibHit| <= s.cfg.dibHitSize && |s.fe.decode| <= s.cfg.decodeSize
    && |s.fe.dispatch| <= s.cfg.dispatchSize && |s.rob| <= s.cfg.robSize && |s.sq| <= s.cfg.sqSize
  }

  // The program fetched so far is exactly what has retired, followed by what is
  // in flight; so nothing is lost, duplicated or reordered.
  predicate InProgramOrder(s: Core) {
    && SortedIds(Flow(s))
    && Program(Flow(s)) == s.trace
    && (forall i :: 0 <= i < |Flow(s)| ==> Flow(s)[i].id < s.nextId)
  }

  ghost predicate Parts(s: Core) {
    && RobInv(s.alloc, s.rob, s.retired, Horizon(s))
    && LsqInv(LsqOf(s), s.retired, s.written)
    && InProgramOrder(s)
    && FrontFresh(s.fe)
    && Sizes(s)
  }

  predicate StateSeal(k: nat) {
    true
  }

  // The invariant of every state, sealed.
  ghost predicate Inv(s: Core) {
    forall k: nat :: StateSeal(k) ==> Parts(s)
  }

  lemma {:induction false} OpenRob(s: Core)
    requires Inv(s)
    ensures RobInv(s.alloc, s.rob, s.retired, Horizon(s))
  {
    assert StateSeal(0);
  }

  lemma {:induction false} OpenLsq(s: Core)
    requires Inv(s)
    ensures LsqInv(LsqOf(s), s.retired, s.written)
  {
    assert StateSeal(0);
  }

  lemma {:induction false} OpenFlow(s: Core)
    requires Inv(s)
    ensures InProgramOrder(s) && FrontFresh(s.fe) && Sizes(s)
  {
    assert StateSeal(0);
  }

  // The core as constructed.
  function Start(cfg: Config, registers: nat, lqSize: nat): Core {
    Core(cfg, 0, true, Buffers([], [], [], []), [], Initial(registers), EmptySlots(lqSize), [], [], [], [], 0)
  }

  function EmptySlots(n: nat): (lq: LoadQueue)
    ensures |lq| == n && forall k :: 0 <= k < n ==> lq[k] == None
  {
    if n == 0 then [] else EmptySlots(n - 1) + [None]
  }

  lemma {:induction false} EmptySlotsIds(n: nat)
    ensures LqIds(EmptySlots(n)) == multiset{}
  {
    if n > 0 {
      EmptySlotsIds(n - 1);
      assert EmptySlots(n)[1..] == EmptySlots(n - 1);
    }
  }

  lemma {:induction false} EmptySlotsParked(lq: LoadQueue, n: nat)
    requires n <= |lq| && forall k :: 0 <= k < |lq| ==> lq[k] == None
    ensures ParkedSlots(lq, n) == multiset{}
  {
    if n > 0 { EmptySlotsParked(lq, n - 1); }
  }

  lemma {:induction false} StartInv(cfg: Config, registers: nat, lqSize: nat)
    requires registers <= ARCH_REGS
    ensures Inv(Start(cfg, registers, lqSize))
  {
    var s := Start(cfg, registers, lqSize);
    InitialInv(registers);
    assert Committed([]) == seq(ARCH_REGS, _ => 0);
    EmptySlotsIds(lqSize);
    EmptySlotsParked(s.lq, |s.lq|);
    assert Flow(s) == [];
  }

  // A state of the core in which everything above holds. Every step below maps
  // such states to such states.
  type State = s: Core | Inv(s)
    ghost witness (StartInv(DefaultConfig(), 0, 0); Start(DefaultConfig(), 0, 0))

  function DefaultConfig(): Config {
    Config(0, 0, 0, 0, 0, 0, 0, 0, 0, 0, 0, 0, 0, 0, 0, 0, 0, 0, 0, 0, 0, 64)
  }

  // ------------------------------------------------------------------ histories

  datatype History = History(registers: nat, retired: seq<Instr>, written: seq<StoreKey>, trace: seq<Op>)

  function HistoryOf(s: Core): History {
    History(|s.alloc.file|, s.retired, s.written, s.trace)
  }

  // Histories only ever grow: what has retired, or has been written, stays so.
  predicate Grows(g: History, h: History) {
    h.registers == g.registers && g.retired <= h.retired && g.written <= h.written && g.trace <= h.trace
  }

  lemma {:induction false} GrowsTrans(f: History, g: History, h: History)
    requires Grows(f, g) && Grows(g, h)
    ensures Grows(f, h)
  {
  }

  // ------------------------------------------------------------------ frames

  // Same program content, entry by entry.
  predicate SameOps(x: seq<Instr>, y: seq<Instr>) {
    |x| == |y| && forall i :: 0 <= i < |x| ==> OpOf(x[i]) == OpOf(y[i])
  }

  lemma {:induction false} FlowFrame(s: Core, r: Core)
    requires InProgramOrder(s) && r.trace == s.trace && r.nextId == s.nextId
    requires Program(Flow(r)) == Program(Flow(s))
    ensures InProgramOrder(r)
  {
    var x, y := Flow(s), Flow(r);
    assert |x| == |Program(x)| == |y|;
    forall i | 0 <= i < |x| ensures x[i].id == y[i].id {
      assert Program(x)[i] == Program(y)[i];
    }
  }

  lemma {:induction false} FlowSameOps(s: Core, r: Core)
    requires r.retired == s.retired && SameOps(s.rob, r.rob) && r.fe == s.fe
    ensures Program(Flow(r)) == Program(Flow(s))
  {
    FlowProgram(s);
    FlowProgram(r);
    assert Program(r.rob) == Program(s.rob);
  }

  lemma {:induction false} SameOpsInOrder(s: Core, r: Core)
    requires InProgramOrder(s) && r.trace == s.trace && r.nextId == s.nextId
    requires r.retired == s.retired && SameOps(s.rob, r.rob) && r.fe == s.fe
    ensures InProgramOrder(r)
  {
    FlowSameOps(s, r);
    FlowFrame(s, r);
  }

  lemma {:induction false} FlowProgram(s: Core)
    ensures Program(Flow(s)) == Program(s.retired) + Program(s.rob) + Program(Order(s.fe))
  {
    ProgramConcat(s.retired, s.rob);
    ProgramConcat(s.retired + s.rob, Order(s.fe));
  }

  // A state assembled from parts that are each in order.
  ghost function Assemble(r: Core): (t: State)
    requires RobInv(r.alloc, r.rob, r.retired, Horizon(r)) && LsqInv(LsqOf(r), r.retired, r.written)
    requires InProgramOrder(r) && FrontFresh(r.fe) && Sizes(r)
    ensures t == r
  {
    r
  }

  // A step of the back end that neither adds nor removes instructions.
  ghost predicate BackEndOnly(s: Core, r: Core) {
    && r == s.(alloc := r.alloc, rob := r.rob, lq := r.lq, sq := r.sq, written := r.written)
    && SameOps(s.rob, r.rob) && |r.sq| <= |s.sq|
  }

  ghost function BackEndStep(s: State, r: Core): (t: State)
    requires BackEndOnly(s, r)
    requires RobInv(r.alloc, r.rob, r.retired, Horizon(r)) && LsqInv(LsqOf(r), r.retired, r.written)
    ensures t == r
  {
    OpenFlow(s);
    SameOpsInOrder(s, r);
    Assemble(r)
  }

  // A step inside the front end that keeps order, freshness and sizes.
  ghost function FrontEndStep(s: State, fe: Buffers): (r: State)
    requires Program(Order(fe)) == Program(Order(s.fe)) && FrontFresh(fe) && Sizes(s.(fe := fe))
    ensures Grows(HistoryOf(s), HistoryOf(r))
  {
    FrontFrame(s, fe);
    Assemble(s.(fe := fe))
  }

  lemma {:induction false} FrontFrame(s: Core, fe: Buffers)
    requires Inv(s) && Program(Order(fe)) == Program(Order(s.fe))
    ensures var r := s.(fe := fe);
            RobInv(r.alloc, r.rob, r.retired, Horizon(r)) && LsqInv(LsqOf(r), r.retired, r.written) && InProgramOrder(r)
  {
    hide Program, Order, RobInv, LsqInv, InProgramOrder, Inv;
    OpenRob(s);
    OpenLsq(s);
    OpenFlow(s);
    FrontInOrder(s, fe);
  }

  lemma {:induction false} FrontInOrder(s: Core, fe: Buffers)
    requires InProgramOrder(s) && Program(Order(fe)) == Program(Order(s.fe))
    ensures InProgramOrder(s.(fe := fe))
  {
    var r := s.(fe := fe);
    FlowProgram(s);
    FlowProgram(r);
    FlowFrame(s, r);
  }

  // -------------------------------------------------------------------- retire

  lemma {:induction false} CompletedInFile(s: Core)
    requires Inv(s)
    ensures Shape(s.alloc) && |s.alloc.file| <= ARCH_REGS
    ensures forall k :: 0 <= k < |s.rob| ==> RegsInRange(s.rob[k])
    ensures forall k :: 0 <= k < |s.rob| && (s.rob[k].executed || s.rob[k].completed) ==> AllInFile(s.alloc, s.rob[k].dst)
  {
    OpenRob(s);
    OpenRobInv(s.alloc, s.rob, s.retired, Horizon(s));
    RegsFromInv(s.alloc, s.rob, s.retired, Horizon(s));
    forall k | 0 <= k < |s.rob| && (s.rob[k].executed || s.rob[k].completed) ensures AllInFile(s.alloc, s.rob[k].dst) {
      assert EntryOk(s.alloc, s.rob, k);
    }
  }

  function RetireOne(s: Core): (r: Core)
    requires s.rob != [] && Shape(s.alloc) && AllInFile(s.alloc, s.rob[0].dst)
  {
    s.(alloc := RetireDests(s.alloc, s.rob[0].dst), rob := s.rob[1..], retired := s.retired + [s.rob[0]])
  }

  lemma {:induction false} RetireOneLsq(s: Core)
    requires s.rob != [] && Shape(s.alloc) && AllInFile(s.alloc, s.rob[0].dst) && s.rob[0].completed
    requires LsqInv(LsqOf(s), s.retired, s.written)
    ensures LsqInv(LsqOf(RetireOne(s)), RetireOne(s).retired, RetireOne(s).written)
  {
    RetireLsqInv(LsqOf(s), s.retired, s.written);
  }

  lemma {:induction false} RetireOneFlow(s: Core)
    requires s.rob != [] && Shape(s.alloc) && AllInFile(s.alloc, s.rob[0].dst)
    ensures Flow(RetireOne(s)) == Flow(s)
  {
    assert s.retired + s.rob == (s.retired + [s.rob[0]]) + s.rob[1..];
  }

  lemma {:induction false} RetireOneRob(s: Core)
    requires RobInv(s.alloc, s.rob, s.retired, Horizon(s))
    requires s.rob != [] && s.rob[0].completed && Shape(s.alloc) && AllInFile(s.alloc, s.rob[0].dst)
    ensures var r := RetireOne(s); RobInv(r.alloc, r.rob, r.retired, Horizon(r))
  {
    RetireEntryInv(s.alloc, s.rob, s.retired, Horizon(s));
  }

  predicate RetireSafe(a: Alloc, rob: seq<Instr>) {
    Shape(a) && forall k :: 0 <= k < |rob| && rob[k].completed ==> AllInFile(a, rob[k].dst)
  }

  // Retiring completed instructions from the front, at most bw.
  function RetireAll(s: Core, bw: nat): Core
    requires RetireSafe(s.alloc, s.rob)
    decreases bw
  {
    if s.rob == [] || bw == 0 || !s.rob[0].completed then s else RetireAll(RetireOne(s), bw - 1)
  }

  // The same in one sweep: the registers of a run of completed entries, oldest first.
  function RetireEntries(a: Alloc, xs: seq<Instr>): (r: Alloc)
    requires Shape(a) && forall k :: 0 <= k < |xs| ==> AllInFile(a, xs[k].dst)
    ensures Shape(r) && |r.file| == |a.file|
  {
    if xs == [] then a
    else
      var n := |xs| - 1;
      assert AllInFile(a, xs[n].dst);
      RetireDests(RetireEntries(a, xs[..n]), xs[n].dst)
  }

  lemma {:induction false} RetireEntriesHead(a: Alloc, xs: seq<Instr>)
    requires Shape(a) && xs != [] && forall k :: 0 <= k < |xs| ==> AllInFile(a, xs[k].dst)
    ensures RetireEntries(a, xs) == RetireEntries(RetireDests(a, xs[0].dst), xs[1..])
  {
    if |xs| == 1 {
      assert xs[..0] == [];
    } else {
      var n := |xs| - 1;
      RetireEntriesHead(a, xs[..n]);
      assert xs[..n][1..] == xs[1..][..n - 1];
    }
  }

  // Completed entries end at n, or the bandwidth does.
  predicate RetireSpan(rob: seq<Instr>, bw: nat, n: nat) {
    && n <= |rob| && n <= bw && (forall k :: 0 <= k < n ==> rob[k].completed)
    && (n == |rob| || n == bw || !rob[n].completed)
  }

  lemma {:induction false} SpanSlices<T>(done: seq<T>, xs: seq<T>, n: nat)
    requires 0 < n <= |xs|
    ensures xs[..n] != [] && xs[..n][0] == xs[0]
    ensures xs[..n][1..] == xs[1..][..n - 1] && xs[1..][n - 1..] == xs[n..]
    ensures (done + [xs[0]]) + xs[1..][..n - 1] == done + xs[..n]
  {
  }

  lemma {:induction false} RetireAllSpan(s: Core, bw: nat, n: nat)
    requires RetireSafe(s.alloc, s.rob) && RetireSpan(s.rob, bw, n)
    ensures RetireAll(s, bw) ==
            s.(alloc := RetireEntries(s.alloc, s.rob[..n]), rob := s.rob[n..], retired := s.retired + s.rob[..n])
    decreases bw
  {
    if n == 0 {
      assert s.rob[0..] == s.rob && s.retired + s.rob[..0] == s.retired;
    } else {
      var t := RetireOne(s);
      RetireAllSpan(t, bw - 1, n - 1);
      RetireEntriesHead(s.alloc, s.rob[..n]);
      SpanSlices(s.retired, s.rob, n);
    }
  }

  ghost function RetireStep(s: State): (r: State)
    requires s.rob != [] && s.rob[0].completed && Shape(s.alloc) && AllInFile(s.alloc, s.rob[0].dst)
    ensures Grows(HistoryOf(s), HistoryOf(r)) && r == RetireOne(s)
  {
    OpenRob(s);
    OpenLsq(s);
    OpenFlow(s);
    RetireOneRob(s);
    RetireOneLsq(s);
    RetireOneFlow(s);
    RetireOne(s)
  }

  ghost function RetireRob(s: State, bw: nat): (r: State)
    ensures Grows(HistoryOf(s), HistoryOf(r))
    ensures RetireSafe(s.alloc, s.rob) && r == RetireAll(s, bw)
    decreases bw
  {
    CompletedInFile(s);
    if s.rob == [] || bw == 0 || !s.rob[0].completed then s
    else
      var t := RetireStep(s);
      GrowsTrans(HistoryOf(s), HistoryOf(t), HistoryOf(RetireRob(t, bw - 1)));
      RetireRob(t, bw - 1)
  }

  // ---------------------------------------------------------------- completion

  predicate ExecutedInFile(a: Alloc, rob: seq<Instr>) {
    forall k :: 0 <= k < |rob| && rob[k].executed ==> AllInFile(a, rob[k].dst)
  }

  function CompleteFrom(a: Alloc, rob: seq<Instr>, i: nat, bw: nat, now: int): (r: (Alloc, seq<Instr>))
    requires Shape(a) && i <= |rob|
    requires ExecutedInFile(a, rob)
    ensures |r.1| == |rob| && |r.0.file| == |a.file|
    decreases |rob| - i
  {
    if i == |rob| || bw == 0 then (a, rob)
    else if CanComplete(rob[i], now) then
      assert forall k :: 0 <= k < |rob| ==> MarkComplete(rob, i)[k].dst == rob[k].dst;
      CompleteFrom(CompleteDests(a, rob[i].dst), MarkComplete(rob, i), i + 1, bw - 1, now)
    else CompleteFrom(a, rob, i + 1, bw, now)
  }

  // Completion is marked only on instructions all of whose memory operations are done.
  predicate CompletedOnly(x: seq<Instr>, y: seq<Instr>) {
    |x| == |y| && forall i :: 0 <= i < |x| ==>
      y[i] == x[i] || (y[i] == x[i].(completed := true) && x[i].memDone == x[i].NumMemOps())
  }

  lemma {:induction false} CompleteFromOnly(a: Alloc, rob: seq<Instr>, i: nat, bw: nat, now: int)
    requires Shape(a) && i <= |rob|
    requires ExecutedInFile(a, rob)
    ensures CompletedOnly(rob, CompleteFrom(a, rob, i, bw, now).1)
    decreases |rob| - i
  {
    if !(i == |rob| || bw == 0) {
      if CanComplete(rob[i], now) {
        CompleteFromOnly(CompleteDests(a, rob[i].dst), MarkComplete(rob, i), i + 1, bw - 1, now);
      } else {
        CompleteFromOnly(a, rob, i + 1, bw, now);
      }
    }
  }

  lemma {:induction false} CompleteFromInv(a: Alloc, rob: seq<Instr>, i: nat, bw: nat, now: int,
                                           retired: seq<Instr>, horizon: int)
    requires RobInv(a, rob, retired, horizon) && Shape(a) && i <= |rob|
    requires ExecutedInFile(a, rob)
    ensures var r := CompleteFrom(a, rob, i, bw, now); RobInv(r.0, r.1, retired, horizon)
    decreases |rob| - i
  {
    if !(i == |rob| || bw == 0) {
      if CanComplete(rob[i], now) {
        CompleteEntryInv(a, rob, retired, horizon, i);
        CompleteFromInv(CompleteDests(a, rob[i].dst), MarkComplete(rob, i), i + 1, bw - 1, now, retired, horizon);
      } else {
        CompleteFromInv(a, rob, i + 1, bw, now, retired, horizon);
      }
    }
  }

  ghost function Complete(s: Core): (r: Core)
    requires Inv(s)
  {
    CompletedInFile(s);
    var (a, rob) := CompleteFrom(s.alloc, s.rob, 0, s.cfg.execWidth, s.now);
    s.(alloc := a, rob := rob)
  }

  lemma {:induction false} CompleteLsq(s: Core)
    requires Inv(s)
    ensures var r := Complete(s); LsqInv(LsqOf(r), r.retired, r.written) && SameOps(s.rob, r.rob)
  {
    OpenLsq(s);
    OpenLsqInv(LsqOf(s), s.retired, s.written);
    CompletedInFile(s);
    CompleteFromOnly(s.alloc, s.rob, 0, s.cfg.execWidth, s.now);
    RobFrame(LsqOf(s), Complete(s).rob, s.retired, s.written);
  }

  lemma {:induction false} CompleteRob(s: Core)
    requires Inv(s)
    ensures var r := Complete(s); RobInv(r.alloc, r.rob, r.retired, Horizon(r))
  {
    OpenRob(s);
    CompletedInFile(s);
    CompleteFromInv(s.alloc, s.rob, 0, s.cfg.execWidth, s.now, s.retired, Horizon(s));
  }

  // Executed instructions complete once their memory operations are done.
  ghost function CompleteInflight(s: State): (r: State)
    ensures Grows(HistoryOf(s), HistoryOf(r)) && r == Complete(s)
  {
    CompleteRob(s);
    CompleteLsq(s);
    BackEndStep(s, Complete(s))
  }

  // ----------------------------------------------------------------- execution

  datatype Window = Window(rob: seq<Instr>, lq: LoadQueue, sq: seq<Store>)

  function ExecuteAt(w: Window, i: nat, at: int): (r: Window)
    requires i < |w.rob|
    ensures |r.rob| == |w.rob|
  {
    Window(w.rob[i := Execute(w.rob[i], at)], WakeLoads(w.lq, w.rob[i].id, at), WakeStores(w.sq, w.rob[i].id, at))
  }

  function ExecuteFrom(a: Alloc, w: Window, i: nat, bw: nat, now: int, at: int): (r: Window)
    requires i <= |w.rob|
    ensures |r.rob| == |w.rob|
    decreases |w.rob| - i
  {
    if i == |w.rob| || bw == 0 then w
    else if CanExecute(a, w.rob[i], now) then ExecuteFrom(a, ExecuteAt(w, i, at), i + 1, bw - 1, now, at)
    else ExecuteFrom(a, w, i + 1, bw, now, at)
  }

  // What execution may change: flags and ready times of renamed entries whose
  // sources are valid, and ready times in the queues.
  predicate Executed(a: Alloc, x: Window, y: Window) {
    && |x.rob| == |y.rob|
    && (forall i :: 0 <= i < |x.rob| ==>
          || y.rob[i] == x.rob[i]
          || (x.rob[i].scheduled && SourcesValid(a, x.rob[i])
              && y.rob[i] == x.rob[i].(executed := true, readyTime := y.rob[i].readyTime)))
    && SimilarLoads(x.lq, y.lq) && SameStores(x.sq, y.sq)
  }

  lemma {:induction false} ExecuteFromOnly(a: Alloc, w: Window, i: nat, bw: nat, now: int, at: int)
    requires i <= |w.rob|
    ensures Executed(a, w, ExecuteFrom(a, w, i, bw, now, at))
    decreases |w.rob| - i
  {
    if !(i == |w.rob| || bw == 0) {
      if CanExecute(a, w.rob[i], now) {
        ExecuteFromOnly(a, ExecuteAt(w, i, at), i + 1, bw - 1, now, at);
      } else {
        ExecuteFromOnly(a, w, i + 1, bw, now, at);
      }
    }
  }

  function ExecuteReady(s: Core): Core {
    var w := ExecuteFrom(s.alloc, Window(s.rob, s.lq, s.sq), 0, s.cfg.execWidth, s.now, s.now + Latency(s, s.cfg.execLatency));
    s.(rob := w.rob, lq := w.lq, sq := w.sq)
  }

  lemma {:induction false} ExecuteShape(s: Core)
    ensures var r := ExecuteReady(s);
            Executed(s.alloc, Window(s.rob, s.lq, s.sq), Window(r.rob, r.lq, r.sq))
  {
    ExecuteFromOnly(s.alloc, Window(s.rob, s.lq, s.sq), 0, s.cfg.execWidth, s.now, s.now + Latency(s, s.cfg.execLatency));
  }

  lemma {:induction false} ScheduledInFile(s: Core)
    requires Inv(s)
    ensures forall k :: 0 <= k < |s.rob| && s.rob[k].scheduled ==> AllInFile(s.alloc, s.rob[k].src)
  {
    OpenRob(s);
    RegsFromInv(s.alloc, s.rob, s.retired, Horizon(s));
  }

  lemma {:induction false} ExecuteRob(s: Core)
    requires Inv(s)
    ensures var r := ExecuteReady(s); RobInv(r.alloc, r.rob, r.retired, Horizon(r))
  {
    OpenRob(s);
    OpenRobInv(s.alloc, s.rob, s.retired, Horizon(s));
    ExecuteShape(s);
    var r := ExecuteReady(s);
    forall i | 0 <= i < |s.rob| ensures !s.rob[i].scheduled ==> !r.rob[i].executed {
      assert EntryOk(s.alloc, s.rob, i);
    }
    FlagsInv(s.alloc, s.rob, r.rob, s.retired, Horizon(s));
  }

  lemma {:induction false} ExecuteLsq(s: Core)
    requires Inv(s)
    ensures var r := ExecuteReady(s);
            LsqInv(LsqOf(r), r.retired, r.written) && SameOps(s.rob, r.rob) && |r.sq| == |s.sq|
  {
    OpenLsq(s);
    OpenLsqInv(LsqOf(s), s.retired, s.written);
    ExecuteShape(s);
    var r := ExecuteReady(s);
    RobFrame(LsqOf(s), r.rob, s.retired, s.written);
    ReadinessFrame(LsqOf(s).(rob := r.rob), r.lq, r.sq, s.retired, s.written);
  }

  ghost function ExecuteInstructions(s: State): (r: State)
    ensures Grows(HistoryOf(s), HistoryOf(r)) && r == ExecuteReady(s)
  {
    ExecuteRob(s);
    ExecuteLsq(s);
    BackEndStep(s, ExecuteReady(s))
  }

  // ---------------------------------------------------------------- scheduling

  ghost function ScheduleReady(s: Core): (r: Core)
    requires Inv(s)
  {
    CompletedInFile(s);
    var (a, rob) := ScheduleFrom(s.alloc, s.rob, 0, s.cfg.schedulerSize, s.now);
    s.(alloc := a, rob := rob)
  }

  // Scheduling changes only the names and the scheduled flag.
  predicate ScheduledOnly(x: seq<Instr>, y: seq<Instr>) {
    |x| == |y| && forall i :: 0 <= i < |x| ==>
      y[i] == x[i].(src := y[i].src, dst := y[i].dst, scheduled := y[i].scheduled)
  }

  lemma {:induction false} ScheduleStepOnly(a: Alloc, rob: seq<Instr>, i: nat, now: int)
    requires Shape(a) && i < |rob| && RegsInRange(rob[i]) && Need(a, rob[i]) <= |a.free|
    ensures ScheduledOnly(rob, ScheduleStep(a, rob, i, now).1)
  {
  }

  lemma {:induction false} ScheduleFromOnly(a: Alloc, rob: seq<Instr>, i: nat, bw: nat, now: int)
    requires Shape(a) && |a.file| <= ARCH_REGS && i <= |rob|
    requires forall k :: 0 <= k < |rob| ==> RegsInRange(rob[k])
    ensures ScheduledOnly(rob, ScheduleFrom(a, rob, i, bw, now).1)
    decreases |rob| - i
  {
    hide ScheduleStep, RegsInRange;
    if !(i == |rob| || bw == 0 || |a.free| < Need(a, rob[i])) {
      var (a1, rob1) := ScheduleStep(a, rob, i, now);
      ScheduleStepOnly(a, rob, i, now);
      ScheduleFromOnly(a1, rob1, i + 1, if rob1[i].executed then bw else bw - 1, now);
    }
  }

  lemma {:induction false} ScheduleRob(s: Core)
    requires Inv(s)
    ensures var r := ScheduleReady(s); RobInv(r.alloc, r.rob, r.retired, Horizon(r))
  {
    hide RobInv, ScheduleFrom;
    OpenRob(s);
    CompletedInFile(s);
    ScheduleFromInv(s.alloc, s.rob, 0, s.cfg.schedulerSize, s.now, s.retired, Horizon(s));
  }

  lemma {:induction false} ScheduleLsq(s: Core)
    requires Inv(s)
    ensures var r := ScheduleReady(s); LsqInv(LsqOf(r), r.retired, r.written) && SameOps(s.rob, r.rob)
  {
    OpenLsq(s);
    OpenLsqInv(LsqOf(s), s.retired, s.written);
    CompletedInFile(s);
    ScheduleFromOnly(s.alloc, s.rob, 0, s.cfg.schedulerSize, s.now);
    RobFrame(LsqOf(s), ScheduleReady(s).rob, s.retired, s.written);
  }

  ghost function ScheduleInstructions(s: State): (r: State)
    ensures Grows(HistoryOf(s), HistoryOf(r)) && r == ScheduleReady(s)
  {
    ScheduleRob(s);
    ScheduleLsq(s);
    BackEndStep(s, ScheduleReady(s))
  }

  // ------------------------------------------------------------- memory return

  function TakeUpTo<T>(xs: seq<T>, n: nat): seq<T> {
    if |xs| <= n then xs else xs[..n]
  }

  function LoadsReturned(s: Core, l1dReturns: seq<nat>): Core {
    var (rob, lq) := ReturnBlocks(s.rob, s.lq, s.cfg.blockBytes, TakeUpTo(l1dReturns, s.cfg.l1dBandwidth));
    s.(rob := rob, lq := lq)
  }

  lemma {:induction false} CountsRob(s: Core, rob: seq<Instr>)
    requires RobInv(s.alloc, s.rob, s.retired, Horizon(s)) && OnlyCounts(s.rob, rob)
    ensures RobInv(s.alloc, rob, s.retired, Horizon(s)) && SameOps(s.rob, rob)
  {
    OpenRobInv(s.alloc, s.rob, s.retired, Horizon(s));
    forall i | 0 <= i < |rob| ensures !s.rob[i].scheduled ==> !rob[i].executed {
      assert EntryOk(s.alloc, s.rob, i);
    }
    FlagsInv(s.alloc, s.rob, rob, s.retired, Horizon(s));
  }

  lemma {:induction false} LoadsReturnedLsq(s: Core, l1dReturns: seq<nat>)
    requires LsqInv(LsqOf(s), s.retired, s.written)
    ensures var r := LoadsReturned(s, l1dReturns);
            LsqInv(LsqOf(r), r.retired, r.written) && OnlyCounts(s.rob, r.rob)
  {
    ReturnBlocksInv(LsqOf(s), s.retired, s.written, s.cfg.blockBytes, TakeUpTo(l1dReturns, s.cfg.l1dBandwidth));
  }

  ghost function LoadsStep(s: State, l1dReturns: seq<nat>): (r: State)
    ensures Grows(HistoryOf(s), HistoryOf(r)) && r == LoadsReturned(s, l1dReturns)
  {
    OpenRob(s);
    OpenLsq(s);
    LoadsReturnedLsq(s, l1dReturns);
    CountsRob(s, LoadsReturned(s, l1dReturns).rob);
    BackEndStep(s, LoadsReturned(s, l1dReturns))
  }

  lemma {:induction false} MarkFetchedOps(ifetch: seq<Instr>, dibHits: set<nat>, returned: set<nat>, now: int)
    requires AllFresh(ifetch)
    ensures AllFresh(MarkFetched(ifetch, dibHits, returned, now))
    ensures Program(MarkFetched(ifetch, dibHits, returned, now)) == Program(ifetch)
  {
    var r := MarkFetched(ifetch, dibHits, returned, now);
    forall i | 0 <= i < |r| ensures Fresh(r[i]) { assert Fresh(ifetch[i]); }
  }

  // Marks left in the fetch buffer by DIB lookups or by responses of the L1I.
  ghost function MarkStep(s: State, dibHits: set<nat>, returned: set<nat>): (r: State)
    ensures Grows(HistoryOf(s), HistoryOf(r))
  {
    OpenFlow(s);
    MarkFetchedOps(s.fe.ifetch, dibHits, returned, s.now);
    ProgramOrder(s.fe);
    ProgramOrder(s.fe.(ifetch := MarkFetched(s.fe.ifetch, dibHits, returned, s.now)));
    FrontEndStep(s, s.fe.(ifetch := MarkFetched(s.fe.ifetch, dibHits, returned, s.now)))
  }

  ghost function HandleMemoryReturn(s: State, l1iReturns: set<nat>, l1dReturns: seq<nat>): (r: State)
    ensures Grows(HistoryOf(s), HistoryOf(r))
  {
    LoadsStep(MarkStep(s, {}, l1iReturns), l1dReturns)
  }

  // ------------------------------------------------------- load and store queues

  function FetchCount(s: Core): (n: nat)
    ensures FirstUnfetched(s.sq) + n <= |s.sq| && n <= s.cfg.sqWidth
  {
    FetchSpan(s.sq, FirstUnfetched(s.sq), s.cfg.sqWidth, s.now)
  }

  function ExecuteStores(s: Core): (r: Core)
    ensures |r.sq| == |s.sq|
  {
    var t := FetchStores(LsqOf(s), FirstUnfetched(s.sq), FetchCount(s), s.now);
    s.(rob := t.rob, lq := t.lq, sq := t.sq)
  }

  function CompleteOne(s: Core): Core
    requires s.sq != []
  {
    s.(sq := s.sq[1..], written := s.written + [KeyOf(s.sq[0])])
  }

  function IssueReady(s: Core, room: nat): Core {
    s.(lq := IssueLoads(s.lq, 0, s.cfg.lqWidth, room, s.now))
  }

  lemma {:induction false} ExecuteStoresLsq(s: Core)
    requires LsqInv(LsqOf(s), s.retired, s.written)
    ensures var r := ExecuteStores(s);
            LsqInv(LsqOf(r), r.retired, r.written) && OnlyCounts(s.rob, r.rob)
  {
    OpenLsqInv(LsqOf(s), s.retired, s.written);
    FetchedBoundary(s.sq);
    FetchStoresInv(LsqOf(s), s.retired, s.written, FirstUnfetched(s.sq), FetchCount(s), s.now);
    FetchStoresCounts(LsqOf(s), FirstUnfetched(s.sq), FetchCount(s), s.now);
  }

  lemma {:induction false} CompleteOneLsq(s: Core)
    requires LsqInv(LsqOf(s), s.retired, s.written) && s.sq != [] && MayComplete(s.sq[0], s.rob, s.now)
    ensures LsqInv(LsqOf(CompleteOne(s)), CompleteOne(s).retired, CompleteOne(s).written)
  {
    CompleteOneInv(LsqOf(s), s.retired, s.written);
  }

  lemma {:induction false} IssueReadyLsq(s: Core, room: nat)
    requires LsqInv(LsqOf(s), s.retired, s.written)
    ensures var r := IssueReady(s, room); LsqInv(LsqOf(r), r.retired, r.written)
  {
    IssueSimilar(s.lq, 0, s.cfg.lqWidth, room, s.now);
    ReadinessFrame(LsqOf(s), IssueLoads(s.lq, 0, s.cfg.lqWidth, room, s.now), s.sq, s.retired, s.written);
  }

  // The assertions of the load and store queues hold in every state.
  lemma {:induction false} ReturnsAreSafe(s: Core, l1dReturns: seq<nat>)
    requires Inv(s)
    ensures BlocksSafe(s.rob, s.lq, s.cfg.blockBytes, TakeUpTo(l1dReturns, s.cfg.l1dBandwidth))
  {
    OpenLsq(s);
    BlocksAreSafe(LsqOf(s), s.retired, s.written, s.cfg.blockBytes, TakeUpTo(l1dReturns, s.cfg.l1dBandwidth));
  }

  lemma {:induction false} FetchesAreSafe(s: Core)
    requires Inv(s)
    ensures StoresSafe(LsqOf(s), FirstUnfetched(s.sq), FetchCount(s), s.now) && FetchedFirst(s.sq)
  {
    OpenLsq(s);
    OpenLsqInv(LsqOf(s), s.retired, s.written);
    FetchedBoundary(s.sq);
    StoresAreSafe(LsqOf(s), s.retired, s.written, FirstUnfetched(s.sq), FetchCount(s), s.now);
  }

  // Stores whose instruction has executed forward their data, oldest first.
  ghost function ExecuteStoresStep(s: State): (r: State)
    ensures Grows(HistoryOf(s), HistoryOf(r)) && r == ExecuteStores(s)
  {
    OpenRob(s);
    OpenLsq(s);
    var r := ExecuteStores(s);
    ExecuteStoresLsq(s);
    CountsRob(s, r.rob);
    BackEndStep(s, r)
  }

  ghost function CompleteStoreStep(s: State): (r: State)
    requires s.sq != [] && MayComplete(s.sq[0], s.rob, s.now)
    ensures Grows(HistoryOf(s), HistoryOf(r)) && r == CompleteOne(s)
  {
    OpenRob(s);
    OpenLsq(s);
    CompleteOneLsq(s);
    BackEndStep(s, CompleteOne(s))
  }

  // Handing retired stores to the L1D, oldest first, while it has room.
  function CompleteStoresAll(s: Core, bw: nat, room: nat): Core
    decreases bw
  {
    if s.sq == [] || bw == 0 || room == 0 || !MayComplete(s.sq[0], s.rob, s.now) then s
    else CompleteStoresAll(CompleteOne(s), bw - 1, room - 1)
  }

  // Stores that may leave end at n, or the bandwidth or the room does.
  predicate CompleteSpan(sq: seq<Store>, rob: seq<Instr>, now: int, bw: nat, room: nat, n: nat) {
    && n <= |sq| && n <= bw && n <= room
    && (forall k :: 0 <= k < n ==> MayComplete(sq[k], rob, now))
    && (n == |sq| || n == bw || n == room || !MayComplete(sq[n], rob, now))
  }

  lemma {:induction false} CompleteStoresSpan(s: Core, bw: nat, room: nat, n: nat)
    requires CompleteSpan(s.sq, s.rob, s.now, bw, room, n)
    ensures CompleteStoresAll(s, bw, room) == s.(sq := s.sq[n..], written := s.written + Keys(s.sq[..n]))
    decreases bw
  {
    if n == 0 {
      assert s.sq[0..] == s.sq && s.written + Keys(s.sq[..0]) == s.written;
    } else {
      CompleteStoresSpan(CompleteOne(s), bw - 1, room - 1, n - 1);
      SpanSlices(s.written, Keys(s.sq), n);
      SpanSlices([], s.sq, n);
      assert Keys(s.sq[..n]) == Keys(s.sq)[..n] && Keys(s.sq[1..][..n - 1]) == Keys(s.sq)[1..][..n - 1];
    }
  }

  ghost function CompleteStores(s: State, bw: nat, room: nat): (r: State)
    ensures Grows(HistoryOf(s), HistoryOf(r)) && r == CompleteStoresAll(s, bw, room)
    decreases bw
  {
    if s.sq == [] || bw == 0 || room == 0 || !MayComplete(s.sq[0], s.rob, s.now) then s
    else CompleteStores(CompleteStoreStep(s), bw - 1, room - 1)
  }

  ghost function IssueStep(s: State, room: nat): (r: State)
    ensures Grows(HistoryOf(s), HistoryOf(r)) && r == IssueReady(s, room)
  {
    OpenRob(s);
    OpenLsq(s);
    IssueReadyLsq(s, room);
    BackEndStep(s, IssueReady(s, room))
  }

  // Both kinds of stores share the bandwidth of the queue.
  ghost function OperateStores(s: State, storeRoom: nat): (r: State)
    ensures Grows(HistoryOf(s), HistoryOf(r))
  {
    CompleteStores(ExecuteStoresStep(s), s.cfg.sqWidth - FetchCount(s), storeRoom)
  }

  ghost function OperateLsq(s: State, storeRoom: nat, loadRoom: nat): (r: State)
    ensures Grows(HistoryOf(s), HistoryOf(r))
  {
    IssueStep(OperateStores(s, storeRoom), loadRoom)
  }

  // ------------------------------------------------------------------ dispatch

  predicate CanDispatch(s: Core) {
    && s.fe.dispatch != [] && s.fe.dispatch[0].readyTime <= s.now && |s.rob| != s.cfg.robSize
    && CountEmpty(s.lq) >= |s.fe.dispatch[0].srcMem| && |s.fe.dispatch[0].dstMem| + |s.sq| <= s.cfg.sqSize
  }

  function DispatchOne(s: Core): (r: Core)
    requires s.fe.dispatch != []
  {
    var ins := s.fe.dispatch[0].(readyTime := Horizon(s));
    var t := DispatchMemory(LsqOf(s), ins);
    s.(fe := s.fe.(dispatch := s.fe.dispatch[1..]), rob := t.rob, lq := t.lq, sq := t.sq)
  }

  lemma {:induction false} DispatchIsYoungest(s: Core, i: nat)
    requires SortedIds(Flow(s)) && s.fe.dispatch != [] && i < |s.retired + s.rob|
    ensures (s.retired + s.rob)[i].id < s.fe.dispatch[0].id
  {
    var n := |s.retired + s.rob|;
    assert Flow(s)[i] == (s.retired + s.rob)[i];
    assert Order(s.fe)[0] == s.fe.dispatch[0];
    assert Flow(s)[n] == s.fe.dispatch[0];
  }

  lemma {:induction false} DispatchOneLsq(s: Core)
    requires LsqInv(LsqOf(s), s.retired, s.written) && SortedIds(Flow(s)) && CanDispatch(s) && Fresh(s.fe.dispatch[0])
    ensures var r := DispatchOne(s); LsqInv(LsqOf(r), r.retired, r.written)
  {
    var ins := s.fe.dispatch[0].(readyTime := Horizon(s));
    forall i | 0 <= i < |s.retired + s.rob| ensures (s.retired + s.rob)[i].id < ins.id { DispatchIsYoungest(s, i); }
    DispatchLsqInv(LsqOf(s), s.retired, s.written, ins);
  }

  // The reorder buffer gains the instruction itself, counters aside.
  lemma {:induction false} DispatchOneShape(s: Core)
    requires s.fe.dispatch != []
    ensures var r, e := DispatchOne(s), s.fe.dispatch[0];
            && |r.rob| == |s.rob| + 1 && r.rob[..|s.rob|] == s.rob
            && r.rob[|s.rob|] == e.(readyTime := Horizon(s), memDone := r.rob[|s.rob|].memDone)
            && |r.sq| == |s.sq| + |e.dstMem|
            && r == s.(fe := s.fe.(dispatch := s.fe.dispatch[1..]), rob := r.rob, lq := r.lq, sq := r.sq)
  {
  }

  lemma {:induction false} DispatchOneRob(s: Core)
    requires RobInv(s.alloc, s.rob, s.retired, Horizon(s)) && s.fe.dispatch != [] && Fresh(s.fe.dispatch[0])
    ensures var r := DispatchOne(s); RobInv(r.alloc, r.rob, r.retired, Horizon(r))
  {
    DispatchOneShape(s);
    var r := DispatchOne(s);
    DispatchInv(s.alloc, s.rob, s.retired, Horizon(s), r.rob[|s.rob|]);
    assert r.rob == s.rob + [r.rob[|s.rob|]];
  }

  lemma {:induction false} DispatchOneFlow(s: Core)
    requires s.fe.dispatch != []
    ensures Program(Flow(DispatchOne(s))) == Program(Flow(s))
  {
    DispatchOneShape(s);
    var r, e := DispatchOne(s), s.fe.dispatch[0];
    ProgramOne(r.rob, |s.rob|, e);
    ProgramUncons(s.fe.dispatch);
    FlowParts(s);
    FlowParts(r);
    MoveOne(Program(s.retired), Program(s.rob), [OpOf(e)], Program(s.fe.dispatch[1..]),
            Program(Merge(s.fe.dibHit, s.fe.decode)), Program(s.fe.ifetch));
  }

  lemma {:induction false} FlowParts(s: Core)
    ensures Program(Flow(s)) == Program(s.retired) + Program(s.rob)
              + (Program(s.fe.dispatch) + Program(Merge(s.fe.dibHit, s.fe.decode)) + Program(s.fe.ifetch))
  {
    FlowProgram(s);
    ProgramOrder(s.fe);
  }

  lemma {:induction false} ProgramOne(xs: seq<Instr>, n: nat, e: Instr)
    requires |xs| == n + 1 && OpOf(xs[n]) == OpOf(e)
    ensures Program(xs) == Program(xs[..n]) + [OpOf(e)]
  {
  }

  lemma {:induction false} ProgramUncons(xs: seq<Instr>)
    requires xs != []
    ensures Program(xs) == [OpOf(xs[0])] + Program(xs[1..])
  {
    ProgramHead(xs, xs[0], xs[1..]);
  }

  lemma {:induction false} MoveOne<T>(a: seq<T>, b: seq<T>, e: seq<T>, d: seq<T>, m: seq<T>, f: seq<T>)
    ensures a + (b + e) + (d + m + f) == a + b + (e + d + m + f)
  {
  }

  ghost function DispatchStep(s: State): (r: State)
    requires CanDispatch(s)
    ensures Grows(HistoryOf(s), HistoryOf(r)) && r == DispatchOne(s)
  {
    OpenRob(s);
    OpenLsq(s);
    OpenFlow(s);
    assert Fresh(s.fe.dispatch[0]);
    DispatchOneLsq(s);
    DispatchOneRob(s);
    DispatchOneInOrder(s);
    DispatchOneShape(s);
    Assemble(DispatchOne(s))
  }

  // Instructions enter the reorder buffer while there is room for all their parts.
  function DispatchAll(s: Core, bw: nat): Core
    decreases bw
  {
    if bw == 0 || !CanDispatch(s) then s else DispatchAll(DispatchOne(s), bw - 1)
  }

  ghost function Dispatch(s: State, bw: nat): (r: State)
    ensures Grows(HistoryOf(s), HistoryOf(r)) && r == DispatchAll(s, bw)
    decreases bw
  {
    if bw == 0 || !CanDispatch(s) then s else Dispatch(DispatchStep(s), bw - 1)
  }

  // The stores in the queue are older than everything still to be dispatched.
  predicate DispatchSafe(sq: seq<Store>, dispatch: seq<Instr>) {
    && (forall k :: 0 <= k < |dispatch| ==> dispatch[k].memDone == 0)
    && (forall j, k :: 0 <= j < |sq| && 0 <= k < |dispatch| ==> sq[j].id < dispatch[k].id)
    && SortedIds(dispatch)
  }

  lemma {:induction false} DispatchStaysSafe(s: Core)
    requires s.fe.dispatch != [] && DispatchSafe(s.sq, s.fe.dispatch)
    ensures DispatchSafe(DispatchOne(s).sq, DispatchOne(s).fe.dispatch)
  {
    hide AddLoads, Horizon;
    var ins := s.fe.dispatch[0];
    AddLoadsShape(s.lq, s.sq, ins.id, ins.srcMem);
    SortedTail([ins], s.fe.dispatch[1..]);
    assert s.fe.dispatch == [ins] + s.fe.dispatch[1..];
  }

  lemma {:induction false} DispatchIsSafe(s: Core)
    requires Inv(s)
    ensures DispatchSafe(s.sq, s.fe.dispatch)
  {
    OpenFlow(s);
    OpenLsq(s);
    OrderSorted(s);
    var n := |s.retired + s.rob|;
    forall k | 0 <= k < |s.fe.dispatch| ensures s.fe.dispatch[k].memDone == 0 { assert Fresh(s.fe.dispatch[k]); }
    forall i, k | 0 <= i < k < |s.fe.dispatch| ensures s.fe.dispatch[i].id < s.fe.dispatch[k].id {
      assert Order(s.fe)[i].id < Order(s.fe)[k].id;
    }
    forall j, k | 0 <= j < |s.sq| && 0 <= k < |s.fe.dispatch| ensures s.sq[j].id < s.fe.dispatch[k].id {
      QueuedHasOwner(LsqOf(s), s.retired, s.written, j);
      var i :| 0 <= i < n && (s.retired + s.rob)[i].id == s.sq[j].id;
      assert Flow(s)[i] == (s.retired + s.rob)[i] && Flow(s)[n + k] == s.fe.dispatch[k];
    }
  }

  lemma {:induction false} DispatchOneInOrder(s: Core)
    requires InProgramOrder(s) && s.fe.dispatch != []
    ensures InProgramOrder(DispatchOne(s))
  {
    DispatchOneFlow(s);
    FlowFrame(s, DispatchOne(s));
  }

  // ------------------------------------------------------------------ front end

  function DecodeSlots(s: Core): nat {
    Min(s.cfg.dibInorderWidth, Max(0, s.cfg.dispatchSize - |s.fe.dispatch|))
  }

  function Decoded(s: Core): Buffers {
    var cursor := DecodeCursor(s.fe, DecodeSlots(s), s.cfg.decodeWidth, s.now);
    Decode(s.fe, cursor, s.now + Latency(s, s.cfg.dispatchLatency))
  }

  // A trace instruction entering the fetch buffer; warmup drops its registers.
  function Enter(t: TraceInstr, id: nat, warmup: bool, now: int): Instr {
    var src: seq<int> := if warmup then [] else t.src;
    var dst: seq<int> := if warmup then [] else t.dst;
    Instr(id, src, dst, src, dst, t.srcMem, t.dstMem, now, false, false, false, false, false, 0)
  }

  function EnterOne(s: Core, t: TraceInstr): Core {
    var ins := Enter(t, s.nextId + t.gap, s.warmup, s.now);
    s.(fe := s.fe.(ifetch := s.fe.ifetch + [ins]), trace := s.trace + [OpOf(ins)], nextId := ins.id + 1)
  }

  lemma {:induction false} OrderSorted(s: Core)
    requires SortedIds(Flow(s))
    ensures SortedIds(Order(s.fe))
  {
    SortedTail(s.retired + s.rob, Order(s.fe));
  }

  lemma {:induction false} MergeFresh(x: seq<Instr>, y: seq<Instr>)
    requires AllFresh(x) && AllFresh(y)
    ensures AllFresh(Merge(x, y))
  {
    if x != [] && y != [] {
      if y[0].id < x[0].id { MergeFresh(x, y[1..]); } else { MergeFresh(x[1..], y); }
    }
  }

  lemma {:induction false} SelectFresh(w: seq<Instr>, decoded: bool, at: int)
    requires AllFresh(w)
    ensures AllFresh(Select(w, decoded, at))
  {
    if w != [] { SelectFresh(w[..|w| - 1], decoded, at); }
  }

  lemma {:induction false} DecodeFresh(b: Buffers, cursor: Cursor, at: int)
    requires cursor.dib <= |b.dibHit| && cursor.dec <= |b.decode| && FrontFresh(b)
    ensures FrontFresh(Decode(b, cursor, at))
  {
    MergeFresh(SetReady(b.dibHit[..cursor.dib], at), SetReady(b.decode[..cursor.dec], at));
  }

  lemma {:induction false} DecodedInOrder(s: Core)
    requires SortedIds(Flow(s))
    ensures Program(Order(Decoded(s))) == Program(Order(s.fe))
    ensures |Decoded(s).dispatch| <= |s.fe.dispatch| + DecodeSlots(s)
    ensures |Decoded(s).dibHit| <= |s.fe.dibHit| && |Decoded(s).decode| <= |s.fe.decode|
  {
    hide Program, Order, DecodeSlots, Latency, Merge;
    OrderSorted(s);
    DecodeKeepsOrder(s.fe, DecodeSlots(s), s.cfg.decodeWidth, s.now, s.now + Latency(s, s.cfg.dispatchLatency));
  }

  lemma {:induction false} DecodedFresh(s: Core)
    requires FrontFresh(s.fe)
    ensures FrontFresh(Decoded(s))
  {
    DecodeFresh(s.fe, DecodeCursor(s.fe, DecodeSlots(s), s.cfg.decodeWidth, s.now),
                s.now + Latency(s, s.cfg.dispatchLatency));
  }

  lemma {:induction false} DecodedOk(s: Core)
    requires SortedIds(Flow(s)) && FrontFresh(s.fe) && Sizes(s)
    ensures Program(Order(Decoded(s))) == Program(Order(s.fe)) && FrontFresh(Decoded(s)) && Sizes(s.(fe := Decoded(s)))
  {
    DecodedInOrder(s);
    DecodedFresh(s);
  }

  ghost function DecodeInstructions(s: State): (r: State)
    ensures Grows(HistoryOf(s), HistoryOf(r))
  {
    OpenFlow(s);
    DecodedOk(s);
    FrontEndStep(s, Decoded(s))
  }

  // How many instructions leave the fetch buffer: as many as both buffers have room for.
  function PromoteCount(s: Core): (n: nat)
    ensures n <= |s.fe.ifetch|
    ensures |s.fe.dibHit| <= s.cfg.dibHitSize && |s.fe.decode| <= s.cfg.decodeSize ==>
              |s.fe.dibHit| + n <= s.cfg.dibHitSize && |s.fe.decode| + n <= s.cfg.decodeSize
  {
    FetchedSpan(s.fe.ifetch,
                Min(s.cfg.fetchWidth, Min(Max(0, s.cfg.dibHitSize - |s.fe.dibHit|), Max(0, s.cfg.decodeSize - |s.fe.decode|))),
                s.now)
  }

  function Promoted(s: Core): Buffers {
    Promote(s.fe, PromoteCount(s), s.now + s.cfg.dibHitLatency, s.now + Latency(s, s.cfg.decodeLatency))
  }

  lemma {:induction false} PromotedSizes(s: Core)
    requires Sizes(s)
    ensures Sizes(s.(fe := Promoted(s)))
  {
  }

  lemma {:induction false} PromotedOrder(s: Core)
    requires SortedIds(Flow(s))
    ensures Program(Order(Promoted(s))) == Program(Order(s.fe))
  {
    hide Program, Order, Latency;
    OrderSorted(s);
    PromoteKeepsOrder(s.fe, PromoteCount(s), s.now + s.cfg.dibHitLatency, s.now + Latency(s, s.cfg.decodeLatency));
  }

  lemma {:induction false} PromoteFresh(b: Buffers, n: nat, dibAt: int, decodeAt: int)
    requires FrontFresh(b) && n <= |b.ifetch|
    ensures FrontFresh(Promote(b, n, dibAt, decodeAt))
  {
    SelectFresh(b.ifetch[..n], true, dibAt);
    SelectFresh(b.ifetch[..n], false, decodeAt);
  }

  lemma {:induction false} PromotedFresh(s: Core)
    requires FrontFresh(s.fe)
    ensures FrontFresh(Promoted(s))
  {
    PromoteFresh(s.fe, PromoteCount(s), s.now + s.cfg.dibHitLatency, s.now + Latency(s, s.cfg.decodeLatency));
  }

  ghost function PromoteToDecode(s: State): (r: State)
    ensures Grows(HistoryOf(s), HistoryOf(r))
  {
    OpenFlow(s);
    PromotedOrder(s);
    PromotedSizes(s);
    PromotedFresh(s);
    FrontEndStep(s, Promoted(s))
  }

  lemma {:induction false} EnterOneFlow(s: Core, t: TraceInstr)
    requires InProgramOrder(s)
    ensures InProgramOrder(EnterOne(s, t))
  {
    var r := EnterOne(s, t);
    var ins := Enter(t, s.nextId + t.gap, s.warmup, s.now);
    assert Flow(r) == Flow(s) + [ins] by { LastInOrder(s.fe, ins); }
    ProgramOne(Flow(r), |Flow(s)|, ins);
    YoungestEnters(Flow(s), ins, s.nextId);
  }

  lemma {:induction false} LastInOrder(b: Buffers, ins: Instr)
    ensures Order(b.(ifetch := b.ifetch + [ins])) == Order(b) + [ins]
  {
  }

  lemma {:induction false} YoungestEnters(flow: seq<Instr>, ins: Instr, nextId: nat)
    requires SortedIds(flow) && (forall i :: 0 <= i < |flow| ==> flow[i].id < nextId) && nextId <= ins.id
    ensures SortedIds(flow + [ins]) && forall i :: 0 <= i < |flow + [ins]| ==> (flow + [ins])[i].id < ins.id + 1
  {
  }

  ghost function EnterStep(s: State, t: TraceInstr): (r: State)
    requires |s.fe.ifetch| < s.cfg.ifetchSize
    ensures Grows(HistoryOf(s), HistoryOf(r)) && r == EnterOne(s, t)
  {
    OpenRob(s);
    OpenLsq(s);
    OpenFlow(s);
    EnterOneFlow(s, t);
    assert Fresh(Enter(t, s.nextId + t.gap, s.warmup, s.now));
    Assemble(EnterOne(s, t))
  }

  // Trace instructions enter the fetch buffer in order.
  function InitializeAll(s: Core, fetched: seq<TraceInstr>, bw: nat): Core
    decreases bw
  {
    if fetched == [] || bw == 0 || |s.fe.ifetch| >= s.cfg.ifetchSize then s
    else InitializeAll(EnterOne(s, fetched[0]), fetched[1..], bw - 1)
  }

  ghost function InitializeInstructions(s: State, fetched: seq<TraceInstr>, bw: nat): (r: State)
    ensures Grows(HistoryOf(s), HistoryOf(r)) && r == InitializeAll(s, fetched, bw)
    decreases bw
  {
    if fetched == [] || bw == 0 || |s.fe.ifetch| >= s.cfg.ifetchSize then s
    else InitializeInstructions(EnterStep(s, fetched[0]), fetched[1..], bw - 1)
  }

  // ---------------------------------------------------------------------- time

  // Time passes and warmup may end; it never starts again.
  function Tick(s: Core, dt: nat, endWarmup: bool): Core {
    s.(now := s.now + dt, warmup := s.warmup && !endWarmup)
  }

  ghost function TickStep(s: State, dt: nat, endWarmup: bool): (r: State)
    ensures Grows(HistoryOf(s), HistoryOf(r))
  {
    OpenRob(s);
    OpenLsq(s);
    OpenFlow(s);
    HorizonGrows(s.alloc, s.rob, s.retired, Horizon(s), Horizon(Tick(s, dt, endWarmup)));
    assert Flow(Tick(s, dt, endWarmup)) == Flow(s);
    Assemble(Tick(s, dt, endWarmup))
  }

  lemma {:induction false} HorizonGrows(a: Alloc, rob: seq<Instr>, retired: seq<Instr>, h: int, h': int)
    requires RobInv(a, rob, retired, h) && h <= h'
    ensures RobInv(a, rob, retired, h')
  {
  }

  // --------------------------------------------------------------------- cycles

  ghost function FinishInstructions(s: State): (r: State)
    ensures Grows(HistoryOf(s), HistoryOf(r))
  {
    CompleteInflight(RetireRob(s, s.cfg.retireWidth))
  }

  ghost function StartInstructions(s: State): (r: State)
    ensures Grows(HistoryOf(s), HistoryOf(r))
  {
    ScheduleInstructions(ExecuteInstructions(s))
  }

  ghost function OperateMemory(s: State, e: Env): (r: State)
    ensures Grows(HistoryOf(s), HistoryOf(r))
  {
    OperateLsq(HandleMemoryReturn(s, e.l1iReturns, e.l1dReturns), e.storeRoom, e.loadRoom)
  }

  ghost function MoveInstructions(s: State): (r: State)
    ensures Grows(HistoryOf(s), HistoryOf(r))
  {
    var t := Dispatch(s, s.cfg.dispatchWidth);
    GrowsTrans(HistoryOf(s), HistoryOf(t), HistoryOf(DecodeInstructions(t)));
    DecodeInstructions(t)
  }

  ghost function FetchInstructions(s: State, e: Env): (r: State)
    ensures Grows(HistoryOf(s), HistoryOf(r))
  {
    var t := MarkStep(PromoteToDecode(s), e.dibHits, {});
    InitializeInstructions(t, e.fetched, t.cfg.fetchWidth)
  }

  ghost function OperateBackEnd(s: State, e: Env): (r: State)
    ensures Grows(HistoryOf(s), HistoryOf(r))
  {
    OperateMemory(StartInstructions(FinishInstructions(s)), e)
  }

  ghost function OperateFrontEnd(s: State, e: Env): (r: State)
    ensures Grows(HistoryOf(s), HistoryOf(r))
  {
    var t := MoveInstructions(s);
    GrowsTrans(HistoryOf(s), HistoryOf(t), HistoryOf(FetchInstructions(t, e)));
    FetchInstructions(t, e)
  }

  // One call of O3_CPU::operate.
  ghost function Operate(s: State, e: Env): (r: State)
    ensures Grows(HistoryOf(s), HistoryOf(r))
  {
    var t := OperateBackEnd(s, e);
    GrowsTrans(HistoryOf(s), HistoryOf(t), HistoryOf(OperateFrontEnd(t, e)));
    OperateFrontEnd(t, e)
  }

  ghost function Cycle(s: State, e: Env): (r: State)
    ensures Grows(HistoryOf(s), HistoryOf(r))
  {
    Operate(TickStep(s, e.dt, e.endWarmup), e)
  }

  ghost function Run(s: State, es: seq<Env>): (r: State)
    ensures Grows(HistoryOf(s), HistoryOf(r))
  {
    if es == [] then s else Cycle(Run(s, es[..|es| - 1]), es[|es| - 1])
  }

  // The core after any number of cycles, whatever the trace, the caches, the
  // branch predictor and the decoded-instruction buffer answered.
  ghost function Reached(cfg: Config, registers: nat, lqSize: nat, es: seq<Env>): State
    requires registers <= ARCH_REGS
  {
    StartInv(cfg, registers, lqSize);
    Run(Start(cfg, registers, lqSize), es)
  }

  // ------------------------------------------------------------- main theorems

  // Every read sees the youngest older write, in every reachable state: the
  // register named by a source of a renamed instruction was made by the
  // youngest instruction before it in the program that writes that
  // architectural register, is not free, and is valid exactly when that
  // instruction has completed or retired.
  lemma {:induction false} ReadsSeeYoungestWrite(cfg: Config, registers: nat, lqSize: nat, es: seq<Env>, i: nat, k: nat)
    requires registers <= ARCH_REGS
    requires var s := Reached(cfg, registers, lqSize, es); i < |s.rob| && s.rob[i].scheduled && k < |s.rob[i].src|
    ensures var s := Reached(cfg, registers, lqSize, es);
            k < |s.rob[i].archSrc| && |s.alloc.back| == ARCH_REGS && NamesYoungestWriter(s.alloc, s.rob, s.retired, i, k)
  {
    var s := Reached(cfg, registers, lqSize, es);
    OpenRob(s);
    OpenRobInv(s.alloc, s.rob, s.retired, Horizon(s));
    SourceNamesYoungestWriter(s.alloc, s.rob, s.retired, Horizon(s), i, k);
  }

  // No instruction has executed before every older instruction it reads from has completed.
  lemma {:induction false} DataflowOrder(cfg: Config, registers: nat, lqSize: nat, es: seq<Env>, i: nat, k: nat)
    requires registers <= ARCH_REGS
    requires var s := Reached(cfg, registers, lqSize, es); i < |s.rob| && s.rob[i].executed && k < |s.rob[i].archSrc|
    ensures var s := Reached(cfg, registers, lqSize, es);
            var w := InFlightWriter(s.rob, i, s.rob[i].archSrc[k]);
            w >= 0 ==> s.rob[w].completed
  {
    var s := Reached(cfg, registers, lqSize, es);
    OpenRob(s);
    ExecutesAfterProducers(s.alloc, s.rob, s.retired, Horizon(s), i, k);
  }

  // Free registers, committed mappings and unretired renamed destinations add
  // up to the register file; renamed instructions come first in the buffer.
  lemma {:induction false} RegistersConserved(cfg: Config, registers: nat, lqSize: nat, es: seq<Env>)
    requires registers <= ARCH_REGS
    ensures var s := Reached(cfg, registers, lqSize, es);
            && |s.alloc.free| + Mapped(s.alloc.back) + |Writes(s.rob)| == registers
            && (forall i, j :: 0 <= i < j < |s.alloc.free| ==> s.alloc.free[i] != s.alloc.free[j])
            && (forall i, j :: 0 <= i < j < |s.rob| && s.rob[j].scheduled ==> s.rob[i].scheduled)
  {
    var s := Reached(cfg, registers, lqSize, es);
    OpenRob(s);
    OpenRobInv(s.alloc, s.rob, s.retired, Horizon(s));
    Conservation(s.alloc, Writes(s.rob), Committed(s.retired));
    StartInv(cfg, registers, lqSize);
    assert HistoryOf(Start(cfg, registers, lqSize)).registers == registers;
    StartInv(cfg, registers, lqSize);
  }

  // Completed operations, occupied load slots and unexecuted stores of an
  // instruction add up to all of its memory operations.
  lemma {:induction false} MemoryOperationsAccounted(cfg: Config, registers: nat, lqSize: nat, es: seq<Env>, i: nat)
    requires registers <= ARCH_REGS && i < |Reached(cfg, registers, lqSize, es).rob|
    ensures var s := Reached(cfg, registers, lqSize, es);
            s.rob[i].memDone + LqIds(s.lq)[s.rob[i].id] + UnfetchedIds(s.sq)[s.rob[i].id] == s.rob[i].NumMemOps()
  {
    var s := Reached(cfg, registers, lqSize, es);
    OpenLsq(s);
    Accounting(LsqOf(s), s.retired, s.written, i);
  }

  // The L1D has received stores of retired instructions only, in program order,
  // each once; those it has not received yet are still queued.
  lemma {:induction false} StoresWrittenInOrder(cfg: Config, registers: nat, lqSize: nat, es: seq<Env>)
    requires registers <= ARCH_REGS
    ensures var s := Reached(cfg, registers, lqSize, es);
            s.written <= StoresOf(s.retired) <= s.written + Keys(s.sq)
  {
    var s := Reached(cfg, registers, lqSize, es);
    OpenLsq(s);
    OpenLsqInv(LsqOf(s), s.retired, s.written);
    WrittenInProgramOrder(LsqOf(s), s.retired, s.written);
  }

  lemma {:induction false} OneMoreCycle(s: State, es: seq<Env>)
    requires es != []
    ensures Grows(HistoryOf(Run(s, es[..|es| - 1])), HistoryOf(Run(s, es)))
  {
  }

  predicate Chain(hs: seq<History>) {
    forall i :: 0 < i < |hs| ==> Grows(hs[i - 1], hs[i])
  }

  lemma {:induction false} ChainSnoc(hs: seq<History>, h: History)
    requires Chain(hs) && hs != [] && Grows(hs[|hs| - 1], h)
    ensures Chain(hs + [h])
  {
  }

  lemma {:induction false} ChainGrows(hs: seq<History>, n: nat, m: nat)
    requires n <= m < |hs| && Chain(hs)
    ensures Grows(hs[n], hs[m])
    decreases m
  {
    if n < m {
      ChainGrows(hs, n, m - 1);
      GrowsTrans(hs[n], hs[m - 1], hs[m]);
    }
  }

  // The histories before the first cycle and after each one.
  ghost function Histories(s: State, es: seq<Env>): (hs: seq<History>)
    ensures |hs| == |es| + 1 && hs[|es|] == HistoryOf(Run(s, es)) && Chain(hs)
  {
    if es == [] then [HistoryOf(s)]
    else
      OneMoreCycle(s, es);
      ChainSnoc(Histories(s, es[..|es| - 1]), HistoryOf(Run(s, es)));
      Histories(s, es[..|es| - 1]) + [HistoryOf(Run(s, es))]
  }

  // Nothing retired, written or fetched in one cycle is revised by later ones.
  lemma {:induction false} HistoriesGrow(s: State, es: seq<Env>, n: nat, m: nat)
    requires n <= m <= |es|
    ensures Grows(Histories(s, es)[n], Histories(s, es)[m])
  {
    ChainGrows(Histories(s, es), n, m);
  }

  // What has retired, followed by what is in flight, is the program fetched so
  // far: nothing is lost, duplicated or reordered, and no buffer overflows.
  lemma {:induction false} RetiresTheProgram(cfg: Config, registers: nat, lqSize: nat, es: seq<Env>)
    requires registers <= ARCH_REGS
    ensures var s := Reached(cfg, registers, lqSize, es);
            && Program(s.retired) <= s.trace
            && Program(s.retired) + Program(s.rob) + Program(Order(s.fe)) == s.trace
            && SortedIds(s.retired + s.rob + Order(s.fe))
            && Sizes(s)
  {
    var s := Reached(cfg, registers, lqSize, es);
    OpenFlow(s);
    FlowProgram(s);
  }
}
