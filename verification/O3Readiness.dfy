// Nothing happens early: what a reachable state of the core says about the ready
// times of instructions, loads and stores.
module O3Readiness {
  import opened Prelude
  import opened Pipeline
  import opened RegisterAllocation
  import opened ReorderBuffer
  import opened LoadStoreQueue
  import opened LoadStoreInvariant
  import opened FrontEnd
  import opened O3Core
  import opened O3Forwarding

  // ---------------------------------------------------------------- one entry

  // When the memory operations of an instruction may start: not before it has
  // executed, and then once its result is ready.
  function StartTime(ins: Instr): Option<int> {
    if ins.executed then Some(ins.readyTime) else None
  }

  predicate InstrTimely(ins: Instr, now: int) {
    && (ins.scheduled && !ins.executed ==> ins.readyTime <= now)
    && (ins.completed ==> ins.executed && ins.readyTime <= now)
  }

  predicate LoadTimely(load: Load, ins: Instr, now: int) {
    load.ready == StartTime(ins) && (load.issued ==> ins.executed && ins.readyTime < now)
  }

  predicate StoreTimely(st: Store, ins: Instr, now: int) {
    if st.fetched then ins.executed && ins.readyTime <= now else st.ready == StartTime(ins)
  }

  predicate RobTimely(rob: seq<Instr>, now: int) {
    forall i :: 0 <= i < |rob| ==> InstrTimely(rob[i], now)
  }

  predicate LoadsTimely(rob: seq<Instr>, lq: LoadQueue, now: int) {
    forall s, i :: 0 <= s < |lq| && lq[s].Some? && 0 <= i < |rob| && rob[i].id == lq[s].value.id ==>
      LoadTimely(lq[s].value, rob[i], now)
  }

  predicate StoresTimely(rob: seq<Instr>, sq: seq<Store>, now: int) {
    forall j, i :: 0 <= j < |sq| && 0 <= i < |rob| && rob[i].id == sq[j].id ==> StoreTimely(sq[j], rob[i], now)
  }

  predicate Timely(s: Core) {
    RobTimely(s.rob, s.now) && LoadsTimely(s.rob, s.lq, s.now) && StoresTimely(s.rob, s.sq, s.now)
  }

  // ------------------------------------------------------------------- frames

  // Instructions keep what the times depend on.
  predicate SameTimes(x: seq<Instr>, y: seq<Instr>) {
    |y| == |x| && forall i :: 0 <= i < |x| ==>
      y[i].id == x[i].id && y[i].executed == x[i].executed && y[i].readyTime == x[i].readyTime
  }

  // Slots stay as they are, or are emptied.
  predicate SomeCleared(x: LoadQueue, y: LoadQueue) {
    |y| == |x| && forall s :: 0 <= s < |x| && y[s].Some? ==> y[s] == x[s]
  }

  predicate SameStoreTimes(x: seq<Store>, y: seq<Store>) {
    |y| == |x| && forall j :: 0 <= j < |x| ==> y[j].id == x[j].id && y[j].fetched == x[j].fetched && y[j].ready == x[j].ready
  }

  lemma {:induction false} LoadsFrame(x: seq<Instr>, lq: LoadQueue, y: seq<Instr>, l: LoadQueue, now: int)
    requires LoadsTimely(x, lq, now) && SameTimes(x, y) && SomeCleared(lq, l)
    ensures LoadsTimely(y, l, now)
  {
    forall s, i | 0 <= s < |l| && l[s].Some? && 0 <= i < |y| && y[i].id == l[s].value.id
      ensures LoadTimely(l[s].value, y[i], now)
    {
      assert LoadTimely(lq[s].value, x[i], now);
    }
  }

  lemma {:induction false} StoresFrame(x: seq<Instr>, sq: seq<Store>, y: seq<Instr>, q: seq<Store>, now: int)
    requires StoresTimely(x, sq, now) && SameTimes(x, y) && SameStoreTimes(sq, q)
    ensures StoresTimely(y, q, now)
  {
    forall j, i | 0 <= j < |q| && 0 <= i < |y| && y[i].id == q[j].id ensures StoreTimely(q[j], y[i], now) {
      assert StoreTimely(sq[j], x[i], now);
    }
  }

  lemma {:induction false} SameCleared(lq: LoadQueue)
    ensures SomeCleared(lq, lq)
  {
  }

  // --------------------------------------------------------------- retirement

  lemma {:induction false} RetireTimely(s: Core, bw: nat)
    requires RetireSafe(s.alloc, s.rob) && Timely(s)
    ensures Timely(RetireAll(s, bw))
    decreases bw
  {
    hide RetireDests, InstrTimely, LoadTimely, StoreTimely;
    if !(s.rob == [] || bw == 0 || !s.rob[0].completed) { RetireTimely(RetireOne(s), bw - 1); }
  }

  // --------------------------------------------------------------- completion

  lemma {:induction false} CompleteTimes(a: Alloc, rob: seq<Instr>, i: nat, bw: nat, now: int)
    requires Shape(a) && i <= |rob| && ExecutedInFile(a, rob) && RobTimely(rob, now)
    ensures var r := CompleteFrom(a, rob, i, bw, now).1; RobTimely(r, now) && SameTimes(rob, r)
    decreases |rob| - i
  {
    hide Shape, CompleteDests;
    if !(i == |rob| || bw == 0) {
      if CanComplete(rob[i], now) {
        assert forall k :: 0 <= k < |rob| ==> MarkComplete(rob, i)[k].dst == rob[k].dst;
        CompleteTimes(CompleteDests(a, rob[i].dst), MarkComplete(rob, i), i + 1, bw - 1, now);
      } else {
        CompleteTimes(a, rob, i + 1, bw, now);
      }
    }
  }

  lemma {:induction false} FinishTimely(s: State)
    requires Timely(s)
    ensures Timely(FinishInstructions(s))
  {
    hide Inv, RobTimely, LoadsTimely, StoresTimely, CompleteFrom, RetireAll;
    var t := RetireRob(s, s.cfg.retireWidth);
    RetireTimely(s, s.cfg.retireWidth);
    CompletedInFile(t);
    var r := CompleteInflight(t);
    CompleteTimes(t.alloc, t.rob, 0, t.cfg.execWidth, t.now);
    LoadsFrame(t.rob, t.lq, r.rob, r.lq, t.now);
    StoresFrame(t.rob, t.sq, r.rob, r.sq, t.now);
  }

  // ---------------------------------------------------------------- execution

  lemma {:induction false} ExecuteAtTimely(w: Window, i: nat, now: int, at: int)
    requires i < |w.rob| && w.rob[i].scheduled && !w.rob[i].executed && !w.rob[i].completed && SortedIds(w.rob)
    requires RobTimely(w.rob, now) && LoadsTimely(w.rob, w.lq, now) && StoresTimely(w.rob, w.sq, now)
    ensures var r := ExecuteAt(w, i, at);
            SortedIds(r.rob) && RobTimely(r.rob, now) && LoadsTimely(r.rob, r.lq, now) && StoresTimely(r.rob, r.sq, now)
  {
    var r := ExecuteAt(w, i, at);
    assert forall k :: 0 <= k < |w.rob| ==> r.rob[k].id == w.rob[k].id;
    assert forall k :: 0 <= k < |w.rob| && w.rob[k].id == w.rob[i].id ==> k == i;
    forall s, k | 0 <= s < |r.lq| && r.lq[s].Some? && 0 <= k < |r.rob| && r.rob[k].id == r.lq[s].value.id
      ensures LoadTimely(r.lq[s].value, r.rob[k], now)
    {
      assert LoadTimely(w.lq[s].value, w.rob[k], now);
    }
    forall j, k | 0 <= j < |r.sq| && 0 <= k < |r.rob| && r.rob[k].id == r.sq[j].id ensures StoreTimely(r.sq[j], r.rob[k], now) {
      assert StoreTimely(w.sq[j], w.rob[k], now);
    }
  }

  lemma {:induction false} ExecuteTimely(a: Alloc, w: Window, i: nat, bw: nat, now: int, at: int)
    requires i <= |w.rob| && SortedIds(w.rob) && RobTimely(w.rob, now)
    requires LoadsTimely(w.rob, w.lq, now) && StoresTimely(w.rob, w.sq, now)
    ensures var r := ExecuteFrom(a, w, i, bw, now, at);
            RobTimely(r.rob, now) && LoadsTimely(r.rob, r.lq, now) && StoresTimely(r.rob, r.sq, now)
    decreases |w.rob| - i
  {
    hide LoadsTimely, StoresTimely, ExecuteAt, SourcesValid, SortedIds;
    if !(i == |w.rob| || bw == 0) {
      if CanExecute(a, w.rob[i], now) {
        ExecuteAtTimely(w, i, now, at);
        ExecuteSize(w, i, at);
        ExecuteTimely(a, ExecuteAt(w, i, at), i + 1, bw - 1, now, at);
      } else {
        ExecuteTimely(a, w, i + 1, bw, now, at);
      }
    }
  }

  lemma {:induction false} ExecuteSize(w: Window, i: nat, at: int)
    requires i < |w.rob|
    ensures |ExecuteAt(w, i, at).rob| == |w.rob|
  {
  }

  lemma {:induction false} ScheduleTimes(a: Alloc, rob: seq<Instr>, i: nat, bw: nat, now: int)
    requires Shape(a) && |a.file| <= ARCH_REGS && i <= |rob| && RobTimely(rob, now)
    requires forall k :: 0 <= k < |rob| ==> RegsInRange(rob[k])
    ensures var r := ScheduleFrom(a, rob, i, bw, now).1; RobTimely(r, now) && SameTimes(rob, r)
    decreases |rob| - i
  {
    hide RegsInRange, Shape, Need, ScheduleStep, RobTimely;
    if !(i == |rob| || bw == 0 || |a.free| < Need(a, rob[i])) {
      var (a1, rob1) := ScheduleStep(a, rob, i, now);
      ScheduleStepTimes(a, rob, i, now);
      ScheduleTimes(a1, rob1, i + 1, if rob1[i].executed then bw else bw - 1, now);
    }
  }

  lemma {:induction false} ScheduleStepTimes(a: Alloc, rob: seq<Instr>, i: nat, now: int)
    requires Shape(a) && i < |rob| && RegsInRange(rob[i]) && Need(a, rob[i]) <= |a.free| && RobTimely(rob, now)
    ensures var r := ScheduleStep(a, rob, i, now).1; RobTimely(r, now) && SameTimes(rob, r)
  {
    hide Shape, RegsInRange, Need;
  }

  lemma {:induction false} StateSorted(s: State)
    ensures SortedIds(s.rob)
  {
    OpenLsq(s);
    OpenLsqInv(LsqOf(s), s.retired, s.written);
    SortedTail(s.retired, s.rob);
  }

  lemma {:induction false} StartTimely(s: State)
    requires Timely(s)
    ensures Timely(StartInstructions(s))
  {
    hide Inv, RobTimely, LoadsTimely, StoresTimely, ExecuteFrom, ScheduleFrom, SortedIds, CanExecute, CanComplete;
    var t := ExecuteInstructions(s);
    StateSorted(s);
    ExecuteTimely(s.alloc, Window(s.rob, s.lq, s.sq), 0, s.cfg.execWidth, s.now, s.now + Latency(s, s.cfg.execLatency));
    CompletedInFile(t);
    var r := ScheduleInstructions(t);
    ScheduleTimes(t.alloc, t.rob, 0, t.cfg.schedulerSize, t.now);
    SameCleared(t.lq);
    LoadsFrame(t.rob, t.lq, r.rob, r.lq, t.now);
    StoresFrame(t.rob, t.sq, r.rob, r.sq, t.now);
  }

  // ------------------------------------------------------- memory return, stores

  lemma {:induction false} CountsTimes(x: seq<Instr>, y: seq<Instr>, now: int)
    requires OnlyCounts(x, y) && RobTimely(x, now)
    ensures RobTimely(y, now) && SameTimes(x, y)
  {
    forall i | 0 <= i < |y| ensures InstrTimely(y[i], now) { assert InstrTimely(x[i], now); }
  }

  lemma {:induction false} ReturnBlockClears(rob: seq<Instr>, lq: LoadQueue, n: nat, blockBytes: BlockBytes, block: nat)
    requires n <= |lq|
    ensures SomeCleared(lq, ReturnBlock(rob, lq, n, blockBytes, block).1)
  {
    if n > 0 { ReturnBlockClears(rob, lq, n - 1, blockBytes, block); }
  }

  lemma {:induction false} ReturnBlocksClear(rob: seq<Instr>, lq: LoadQueue, blockBytes: BlockBytes, blocks: seq<nat>)
    ensures SomeCleared(lq, ReturnBlocks(rob, lq, blockBytes, blocks).1)
  {
    if blocks != [] {
      var n := |blocks| - 1;
      var (rob1, lq1) := ReturnBlocks(rob, lq, blockBytes, blocks[..n]);
      ReturnBlocksClear(rob, lq, blockBytes, blocks[..n]);
      ReturnBlockClears(rob1, lq1, |lq1|, blockBytes, blocks[n]);
    }
  }

  lemma {:induction false} ReleaseClears(rob: seq<Instr>, lq: LoadQueue, ws: seq<nat>)
    ensures SomeCleared(lq, Release(rob, lq, ws).1)
  {
    if ws != [] { ReleaseClears(rob, lq, ws[..|ws| - 1]); }
  }

  lemma {:induction false} ReturnTimely(s: State, l1iReturns: set<nat>, l1dReturns: seq<nat>)
    requires Timely(s)
    ensures Timely(HandleMemoryReturn(s, l1iReturns, l1dReturns))
  {
    hide Inv, RobTimely, LoadsTimely, StoresTimely, ReturnBlocks;
    var t := MarkStep(s, {}, l1iReturns);
    var r := LoadsStep(t, l1dReturns);
    OpenLsq(t);
    LoadsReturnedLsq(t, l1dReturns);
    CountsTimes(t.rob, r.rob, t.now);
    ReturnBlocksClear(t.rob, t.lq, t.cfg.blockBytes, TakeUpTo(l1dReturns, t.cfg.l1dBandwidth));
    LoadsFrame(t.rob, t.lq, r.rob, r.lq, t.now);
    StoresFrame(t.rob, t.sq, r.rob, r.sq, t.now);
  }

  // Stores that are due, from j on, execute.
  lemma {:induction false} FetchTimely(s: Lsq, j: nat, n: nat, now: int)
    requires j + n <= |s.sq| && (forall k :: j <= k < j + n ==> !s.sq[k].fetched && Due(s.sq[k].ready, now))
    requires RobTimely(s.rob, now) && LoadsTimely(s.rob, s.lq, now) && StoresTimely(s.rob, s.sq, now)
    ensures var r := FetchStores(s, j, n, now);
            RobTimely(r.rob, now) && LoadsTimely(r.rob, r.lq, now) && StoresTimely(r.rob, r.sq, now)
    decreases n
  {
    hide RobTimely, LoadsTimely, StoresTimely, OnlyCounts;
    if n > 0 {
      var t := FetchOne(s, j, now);
      FetchOneCounts(s, j, now);
      CountsTimes(s.rob, t.rob, now);
      ReleaseClears(Finish(s.rob, s.sq[j].id), s.lq, s.sq[j].waiters);
      LoadsFrame(s.rob, s.lq, t.rob, t.lq, now);
      FetchOneStores(s, j, t.rob, now);
      FetchTimely(t, j + 1, n - 1, now);
    }
  }

  lemma {:induction false} FetchOneStores(s: Lsq, j: nat, rob: seq<Instr>, now: int)
    requires j < |s.sq| && !s.sq[j].fetched && Due(s.sq[j].ready, now) && StoresTimely(s.rob, s.sq, now) && SameTimes(s.rob, rob)
    ensures StoresTimely(rob, s.sq[j := s.sq[j].(fetched := true, ready := Some(now))], now)
  {
    var q := s.sq[j := s.sq[j].(fetched := true, ready := Some(now))];
    forall k, i | 0 <= k < |q| && 0 <= i < |rob| && rob[i].id == q[k].id ensures StoreTimely(q[k], rob[i], now) {
      assert StoreTimely(s.sq[k], s.rob[i], now);
    }
  }

  lemma {:induction false} SpanDue(sq: seq<Store>, j: nat, bw: nat, now: int)
    requires j <= |sq|
    ensures forall k :: j <= k < j + FetchSpan(sq, j, bw, now) ==> !sq[k].fetched && Due(sq[k].ready, now)
    decreases |sq| - j
  {
    if !(j == |sq| || bw == 0 || sq[j].fetched || !Due(sq[j].ready, now)) { SpanDue(sq, j + 1, bw - 1, now); }
  }

  lemma {:induction false} DropTimely(rob: seq<Instr>, sq: seq<Store>, now: int)
    requires sq != [] && StoresTimely(rob, sq, now)
    ensures StoresTimely(rob, sq[1..], now)
  {
    forall j, i | 0 <= j < |sq[1..]| && 0 <= i < |rob| && rob[i].id == sq[1..][j].id ensures StoreTimely(sq[1..][j], rob[i], now) {
      assert StoreTimely(sq[j + 1], rob[i], now);
    }
  }

  lemma {:induction false} LeaveTimely(s: Core, bw: nat, room: nat)
    requires Timely(s)
    ensures Timely(CompleteStoresAll(s, bw, room))
    decreases bw
  {
    hide RobTimely, LoadsTimely, StoresTimely, MayComplete;
    if !(s.sq == [] || bw == 0 || room == 0 || !MayComplete(s.sq[0], s.rob, s.now)) {
      DropTimely(s.rob, s.sq, s.now);
      LeaveTimely(CompleteOne(s), bw - 1, room - 1);
    }
  }

  lemma {:induction false} StoresStepTimely(s: State, storeRoom: nat)
    requires Timely(s)
    ensures Timely(OperateStores(s, storeRoom))
  {
    hide Inv, RobTimely, LoadsTimely, StoresTimely, FetchStores, FetchSpan, CompleteStoresAll;
    var t := ExecuteStoresStep(s);
    SpanDue(s.sq, FirstUnfetched(s.sq), s.cfg.sqWidth, s.now);
    FetchTimely(LsqOf(s), FirstUnfetched(s.sq), FetchCount(s), s.now);
    LeaveTimely(t, s.cfg.sqWidth - FetchCount(s), storeRoom);
  }

  lemma {:induction false} IssueTimely(rob: seq<Instr>, lq: LoadQueue, s: nat, bw: nat, room: nat, now: int)
    requires s <= |lq| && LoadsTimely(rob, lq, now)
    ensures LoadsTimely(rob, IssueLoads(lq, s, bw, room, now), now)
    decreases |lq| - s
  {
    hide LoadsTimely;
    if !(s == |lq| || bw == 0 || room == 0) {
      if MayIssue(lq[s], now) {
        IssueOneTimely(rob, lq, s, now);
        IssueTimely(rob, lq[s := Some(lq[s].value.(issued := true))], s + 1, bw - 1, room - 1, now);
      } else {
        IssueTimely(rob, lq, s + 1, bw, room, now);
      }
    }
  }

  lemma {:induction false} IssueOneTimely(rob: seq<Instr>, lq: LoadQueue, s: nat, now: int)
    requires s < |lq| && MayIssue(lq[s], now) && LoadsTimely(rob, lq, now)
    ensures LoadsTimely(rob, lq[s := Some(lq[s].value.(issued := true))], now)
  {
    var l := lq[s := Some(lq[s].value.(issued := true))];
    forall t, i | 0 <= t < |l| && l[t].Some? && 0 <= i < |rob| && rob[i].id == l[t].value.id ensures LoadTimely(l[t].value, rob[i], now) {
      assert LoadTimely(lq[t].value, rob[i], now);
    }
  }

  // ----------------------------------------------------------------- dispatch

  lemma {:induction false} AddLoadTimely(rob: seq<Instr>, lq: LoadQueue, sq: seq<Store>, ins: Instr, addr: Addr, now: int)
    requires LoadsTimely(rob, lq, now) && StoresTimely(rob, sq, now)
    requires forall i :: 0 <= i < |rob| && rob[i].id == ins.id ==> !rob[i].executed
    ensures var r := AddLoad(lq, sq, ins.id, addr); LoadsTimely(rob, r.0, now) && StoresTimely(rob, r.1, now)
  {
    var (l, q, d) := AddLoad(lq, sq, ins.id, addr);
    forall t, i | 0 <= t < |l| && l[t].Some? && 0 <= i < |rob| && rob[i].id == l[t].value.id ensures LoadTimely(l[t].value, rob[i], now) {
      if l[t] == lq[t] { assert LoadTimely(lq[t].value, rob[i], now); }
    }
    SameReflexive(rob);
    StoresFrame(rob, sq, rob, q, now);
  }

  lemma {:induction false} SameReflexive(rob: seq<Instr>)
    ensures SameTimes(rob, rob)
  {
  }

  lemma {:induction false} AddLoadsTimely(rob: seq<Instr>, lq: LoadQueue, sq: seq<Store>, ins: Instr, addrs: seq<Addr>, now: int)
    requires LoadsTimely(rob, lq, now) && StoresTimely(rob, sq, now)
    requires forall i :: 0 <= i < |rob| && rob[i].id == ins.id ==> !rob[i].executed
    ensures var r := AddLoads(lq, sq, ins.id, addrs); LoadsTimely(rob, r.0, now) && StoresTimely(rob, r.1, now)
  {
    hide LoadsTimely, StoresTimely, AddLoad;
    if addrs != [] {
      var n := |addrs| - 1;
      var (l, q, d) := AddLoads(lq, sq, ins.id, addrs[..n]);
      AddLoadsTimely(rob, lq, sq, ins, addrs[..n], now);
      AddLoadTimely(rob, l, q, ins, addrs[n], now);
    }
  }

  lemma {:induction false} AppendTimely(rob: seq<Instr>, sq: seq<Store>, ins: Instr, now: int)
    requires StoresTimely(rob, sq, now) && forall i :: 0 <= i < |rob| && rob[i].id == ins.id ==> !rob[i].executed
    ensures StoresTimely(rob, sq + NewStores(ins.id, ins.dstMem), now)
  {
    var q := sq + NewStores(ins.id, ins.dstMem);
    forall j, i | 0 <= j < |q| && 0 <= i < |rob| && rob[i].id == q[j].id ensures StoreTimely(q[j], rob[i], now) {
      if j < |sq| { assert StoreTimely(sq[j], rob[i], now); }
    }
  }

  // An instruction younger than everything queued enters the reorder buffer.
  lemma {:induction false} EnterTimely(rob: seq<Instr>, lq: LoadQueue, sq: seq<Store>, ins: Instr, now: int)
    requires LoadsTimely(rob, lq, now) && StoresTimely(rob, sq, now)
    requires forall s :: 0 <= s < |lq| && lq[s].Some? ==> lq[s].value.id < ins.id
    requires forall j :: 0 <= j < |sq| ==> sq[j].id < ins.id
    ensures LoadsTimely(rob + [ins], lq, now) && StoresTimely(rob + [ins], sq, now)
  {
    var r := rob + [ins];
    forall s, i | 0 <= s < |lq| && lq[s].Some? && 0 <= i < |r| && r[i].id == lq[s].value.id ensures LoadTimely(lq[s].value, r[i], now) {
      assert i < |rob| && LoadTimely(lq[s].value, rob[i], now);
    }
    forall j, i | 0 <= j < |sq| && 0 <= i < |r| && r[i].id == sq[j].id ensures StoreTimely(sq[j], r[i], now) {
      assert i < |rob| && StoreTimely(sq[j], rob[i], now);
    }
  }

  lemma {:induction false} DispatchOneTimely(s: State)
    requires CanDispatch(s) && Timely(s)
    ensures Timely(DispatchOne(s))
  {
    hide Inv, LoadsTimely, StoresTimely, AddLoads, NewStores, SortedIds;
    var e := s.fe.dispatch[0];
    var r := DispatchOne(s);
    DispatchOneShape(s);
    var ins := r.rob[|s.rob|];
    assert r.rob == s.rob + [ins];
    DispatchFresh(s);
    OlderQueued(s);
    OthersOlder(s);
    EnterTimely(s.rob, s.lq, s.sq, ins, s.now);
    AddLoadsTimely(r.rob, s.lq, s.sq, ins, e.srcMem, s.now);
    AppendTimely(r.rob, AddLoads(s.lq, s.sq, e.id, e.srcMem).1, ins, s.now);
  }

  lemma {:induction false} DispatchFresh(s: State)
    requires s.fe.dispatch != []
    ensures !s.fe.dispatch[0].scheduled && !s.fe.dispatch[0].executed && !s.fe.dispatch[0].completed
  {
    OpenFlow(s);
    assert Fresh(s.fe.dispatch[0]);
  }

  lemma {:induction false} OthersOlder(s: State)
    requires s.fe.dispatch != []
    ensures forall i :: 0 <= i < |s.rob| ==> s.rob[i].id < s.fe.dispatch[0].id
  {
    OpenFlow(s);
    forall i | 0 <= i < |s.rob| ensures s.rob[i].id < s.fe.dispatch[0].id {
      DispatchIsYoungest(s, |s.retired| + i);
      assert (s.retired + s.rob)[|s.retired| + i] == s.rob[i];
    }
  }

  lemma {:induction false} OlderQueued(s: State)
    requires s.fe.dispatch != []
    ensures forall t :: 0 <= t < |s.lq| && s.lq[t].Some? ==> s.lq[t].value.id < s.fe.dispatch[0].id
    ensures forall j :: 0 <= j < |s.sq| ==> s.sq[j].id < s.fe.dispatch[0].id
  {
    OthersOlder(s);
    DispatchIsSafe(s);
    forall t | 0 <= t < |s.lq| && s.lq[t].Some? ensures s.lq[t].value.id < s.fe.dispatch[0].id {
      LoadHasOwner(s, t);
    }
  }

  lemma {:induction false} DispatchTimely(s: State, bw: nat)
    requires Timely(s)
    ensures Timely(Dispatch(s, bw))
    decreases bw
  {
    hide Inv, Timely, DispatchOne;
    if !(bw == 0 || !CanDispatch(s)) {
      DispatchOneTimely(s);
      DispatchTimely(DispatchStep(s), bw - 1);
    }
  }

  // ------------------------------------------------------------------- cycles

  lemma {:induction false} TickTimely(s: State, dt: nat, endWarmup: bool)
    requires Timely(s)
    ensures Timely(TickStep(s, dt, endWarmup))
  {
    var r := TickStep(s, dt, endWarmup);
    forall t, i | 0 <= t < |r.lq| && r.lq[t].Some? && 0 <= i < |r.rob| && r.rob[i].id == r.lq[t].value.id
      ensures LoadTimely(r.lq[t].value, r.rob[i], r.now)
    {
      assert LoadTimely(s.lq[t].value, s.rob[i], s.now);
    }
    forall j, i | 0 <= j < |r.sq| && 0 <= i < |r.rob| && r.rob[i].id == r.sq[j].id ensures StoreTimely(r.sq[j], r.rob[i], r.now) {
      assert StoreTimely(s.sq[j], s.rob[i], s.now);
    }
    forall i | 0 <= i < |r.rob| ensures InstrTimely(r.rob[i], r.now) { assert InstrTimely(s.rob[i], s.now); }
  }

  lemma {:induction false} BackEndTimely(s: State, e: Env)
    requires Timely(s)
    ensures Timely(OperateBackEnd(s, e))
  {
    hide Inv, RobTimely, LoadsTimely, StoresTimely, FinishInstructions, StartInstructions, HandleMemoryReturn, OperateStores;
    FinishTimely(s);
    var t := FinishInstructions(s);
    StartTimely(t);
    var u := StartInstructions(t);
    ReturnTimely(u, e.l1iReturns, e.l1dReturns);
    var v := HandleMemoryReturn(u, e.l1iReturns, e.l1dReturns);
    StoresStepTimely(v, e.storeRoom);
    var w := OperateStores(v, e.storeRoom);
    IssueTimely(w.rob, w.lq, 0, w.cfg.lqWidth, e.loadRoom, w.now);
  }

  lemma {:induction false} FrontEndTimely(s: State, e: Env)
    requires Timely(s)
    ensures Timely(OperateFrontEnd(s, e))
  {
    hide Inv, RobTimely, LoadsTimely, StoresTimely, Dispatch, InitializeAll;
    DispatchTimely(s, s.cfg.dispatchWidth);
    var t := MarkStep(PromoteToDecode(MoveInstructions(s)), e.dibHits, {});
    InitializeBackEnd(t, e.fetched, t.cfg.fetchWidth);
  }

  lemma {:induction false} InitializeBackEnd(s: Core, fetched: seq<TraceInstr>, bw: nat)
    ensures var r := InitializeAll(s, fetched, bw); r.lq == s.lq && r.sq == s.sq && r.rob == s.rob && r.now == s.now
    decreases bw
  {
    if !(fetched == [] || bw == 0 || |s.fe.ifetch| >= s.cfg.ifetchSize) {
      InitializeBackEnd(EnterOne(s, fetched[0]), fetched[1..], bw - 1);
    }
  }

  lemma {:induction false} RunTimely(s: State, es: seq<Env>)
    requires Timely(s)
    ensures Timely(Run(s, es))
  {
    hide Inv, Timely, Operate, TickStep;
    if es != [] {
      var n := |es| - 1;
      RunTimely(s, es[..n]);
      CycleTimely(Run(s, es[..n]), es[n]);
    }
  }

  lemma {:induction false} CycleTimely(s: State, e: Env)
    requires Timely(s)
    ensures Timely(Cycle(s, e))
  {
    hide Inv, Timely, TickStep, OperateBackEnd, OperateFrontEnd;
    TickTimely(s, e.dt, e.endWarmup);
    var t := TickStep(s, e.dt, e.endWarmup);
    BackEndTimely(t, e);
    FrontEndTimely(OperateBackEnd(t, e), e);
  }

  // ------------------------------------------------------------- main theorems

  // The memory operations of an instruction wait for it. In every reachable state
  // a queued store has not executed, and a queued load has not been issued, before
  // their instruction has executed and its result is ready; until then they have
  // no ready time, and afterwards that of the instruction.
  lemma {:induction false} MemoryWaitsForExecution(cfg: Config, registers: nat, lqSize: nat, es: seq<Env>, i: nat, slot: nat, j: nat)
    requires registers <= ARCH_REGS
    requires var s := Reached(cfg, registers, lqSize, es); i < |s.rob| && slot < |s.lq| && j < |s.sq|
    ensures var s := Reached(cfg, registers, lqSize, es);
            var ins := s.rob[i];
            && (s.sq[j].id == ins.id && s.sq[j].fetched ==> ins.executed && ins.readyTime <= s.now)
            && (s.sq[j].id == ins.id && !s.sq[j].fetched ==> s.sq[j].ready == if ins.executed then Some(ins.readyTime) else None)
            && (s.lq[slot].Some? && s.lq[slot].value.id == ins.id ==>
                  && (s.lq[slot].value.issued ==> ins.executed && ins.readyTime < s.now)
                  && s.lq[slot].value.ready == if ins.executed then Some(ins.readyTime) else None)
  {
    var s := Reached(cfg, registers, lqSize, es);
    ReachedTimely(cfg, registers, lqSize, es);
    var ins := s.rob[i];
    if s.sq[j].id == ins.id { assert StoreTimely(s.sq[j], ins, s.now); }
    if s.lq[slot].Some? && s.lq[slot].value.id == ins.id { assert LoadTimely(s.lq[slot].value, ins, s.now); }
  }

  // Neither is an instruction renamed, or completed, before it is ready.
  lemma {:induction false} InstructionsWait(cfg: Config, registers: nat, lqSize: nat, es: seq<Env>, i: nat)
    requires registers <= ARCH_REGS && i < |Reached(cfg, registers, lqSize, es).rob|
    ensures var s := Reached(cfg, registers, lqSize, es);
            && (s.rob[i].scheduled && !s.rob[i].executed ==> s.rob[i].readyTime <= s.now)
            && (s.rob[i].completed ==> s.rob[i].executed && s.rob[i].readyTime <= s.now)
  {
    ReachedTimely(cfg, registers, lqSize, es);
  }

  lemma {:induction false} ReachedTimely(cfg: Config, registers: nat, lqSize: nat, es: seq<Env>)
    requires registers <= ARCH_REGS
    ensures Timely(Reached(cfg, registers, lqSize, es))
  {
    StartInv(cfg, registers, lqSize);
    RunTimely(O3Core.Start(cfg, registers, lqSize), es);
  }
}
