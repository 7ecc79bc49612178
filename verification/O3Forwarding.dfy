// Which store a load gets its value from, in every reachable state of the core:
// the youngest older one to its address that is still queued, or none.
module O3Forwarding {
  import opened Prelude
  import opened Pipeline
  import opened RegisterAllocation
  import opened ReorderBuffer
  import opened LoadStoreQueue
  import opened LoadStoreInvariant
  import opened FrontEnd
  import opened O3Core

  // ---------------------------------------------------------------- one load

  predicate OlderStore(load: Load, st: Store) {
    st.addr == load.addr && st.id < load.id
  }

  // No older store to its address is queued, unless the load waits for one at
  // least as young.
  predicate Forwarded(load: Load, sq: seq<Store>) {
    forall j :: 0 <= j < |sq| && OlderStore(load, sq[j]) ==> load.producer.Some? && sq[j].id <= load.producer.value
  }

  predicate AllForwarded(lq: LoadQueue, sq: seq<Store>) {
    forall s :: 0 <= s < |lq| && lq[s].Some? ==> Forwarded(lq[s].value, sq)
  }

  // ------------------------------------------------------------------- frames

  predicate SameSource(x: Load, y: Load) {
    y.addr == x.addr && y.id == x.id && y.producer == x.producer
  }

  // Loads leave, or stay with what they wait for.
  predicate FewerLoads(x: LoadQueue, y: LoadQueue) {
    |y| == |x| && forall s :: 0 <= s < |x| && y[s].Some? ==> x[s].Some? && SameSource(x[s].value, y[s].value)
  }

  // Stores leave from the front.
  predicate FewerStores(x: seq<Store>, y: seq<Store>) {
    |y| <= |x| && forall j :: 0 <= j < |y| ==> KeyOf(y[j]) == KeyOf(x[|x| - |y| + j])
  }

  lemma {:induction false} FewerForwarded(lq: LoadQueue, sq: seq<Store>, l: LoadQueue, q: seq<Store>)
    requires AllForwarded(lq, sq) && FewerLoads(lq, l) && FewerStores(sq, q)
    ensures AllForwarded(l, q)
  {
    forall s | 0 <= s < |l| && l[s].Some? ensures Forwarded(l[s].value, q) {
      assert Forwarded(lq[s].value, sq);
      forall j | 0 <= j < |q| && OlderStore(l[s].value, q[j])
        ensures l[s].value.producer.Some? && q[j].id <= l[s].value.producer.value
      {
        var i := |sq| - |q| + j;
        assert KeyOf(sq[i]) == KeyOf(q[j]);
        assert OlderStore(lq[s].value, sq[i]);
      }
    }
  }

  lemma {:induction false} ReturnBlockFewer(rob: seq<Instr>, lq: LoadQueue, n: nat, blockBytes: BlockBytes, block: nat)
    requires n <= |lq|
    ensures FewerLoads(lq, ReturnBlock(rob, lq, n, blockBytes, block).1)
  {
    if n > 0 { ReturnBlockFewer(rob, lq, n - 1, blockBytes, block); }
  }

  lemma {:induction false} ReturnBlocksFewer(rob: seq<Instr>, lq: LoadQueue, blockBytes: BlockBytes, blocks: seq<nat>)
    ensures FewerLoads(lq, ReturnBlocks(rob, lq, blockBytes, blocks).1)
  {
    if blocks != [] {
      var n := |blocks| - 1;
      var (rob1, lq1) := ReturnBlocks(rob, lq, blockBytes, blocks[..n]);
      ReturnBlocksFewer(rob, lq, blockBytes, blocks[..n]);
      ReturnBlockFewer(rob1, lq1, |lq1|, blockBytes, blocks[n]);
    }
  }

  lemma {:induction false} ReleaseFewer(rob: seq<Instr>, lq: LoadQueue, ws: seq<nat>)
    ensures FewerLoads(lq, Release(rob, lq, ws).1)
  {
    if ws != [] { ReleaseFewer(rob, lq, ws[..|ws| - 1]); }
  }

  lemma {:induction false} FetchStoresFewer(s: Lsq, j: nat, n: nat, now: int)
    requires j + n <= |s.sq|
    ensures var r := FetchStores(s, j, n, now); FewerLoads(s.lq, r.lq) && FewerStores(s.sq, r.sq)
    decreases n
  {
    if n > 0 {
      var t := FetchOne(s, j, now);
      ReleaseFewer(Finish(s.rob, s.sq[j].id), s.lq, s.sq[j].waiters);
      assert FewerLoads(s.lq, t.lq) && FewerStores(s.sq, t.sq);
      FetchStoresFewer(t, j + 1, n - 1, now);
    }
  }

  // ----------------------------------------------------------------- dispatch

  // A new load waits for the youngest store to its address, or there is none.
  lemma {:induction false} AddLoadForwarded(lq: LoadQueue, sq: seq<Store>, id: nat, addr: Addr)
    requires AllForwarded(lq, sq)
    ensures var r := AddLoad(lq, sq, id, addr); AllForwarded(r.0, r.1) && SameButWaiters(sq, r.1)
  {
    var s := FirstEmpty(lq);
    var load := Load(addr, id, None, false, None);
    var (l, q, d) := AddLoad(lq, sq, id, addr);
    if s < |lq| && sq != [] {
      var m := ForwardFrom(sq, addr);
      ForwardsYoungestStore(sq, addr);
      var x := if sq[m].addr == addr then load.(producer := Some(sq[m].id)) else load;
      assert Forwarded(x, q);
    }
    forall t | 0 <= t < |l| && l[t].Some? ensures Forwarded(l[t].value, q) {
      if l[t] == lq[t] {
        forall j | 0 <= j < |q| && OlderStore(l[t].value, q[j])
          ensures l[t].value.producer.Some? && q[j].id <= l[t].value.producer.value
        {
          assert OlderStore(lq[t].value, sq[j]);
        }
      }
    }
  }

  lemma {:induction false} AddLoadsForwarded(lq: LoadQueue, sq: seq<Store>, id: nat, addrs: seq<Addr>)
    requires AllForwarded(lq, sq)
    ensures var r := AddLoads(lq, sq, id, addrs); AllForwarded(r.0, r.1)
  {
    if addrs != [] {
      var n := |addrs| - 1;
      var (l, q, d) := AddLoads(lq, sq, id, addrs[..n]);
      AddLoadsForwarded(lq, sq, id, addrs[..n]);
      AddLoadForwarded(l, q, id, addrs[n]);
    }
  }

  predicate LoadsUpTo(lq: LoadQueue, id: nat) {
    forall s :: 0 <= s < |lq| && lq[s].Some? ==> lq[s].value.id <= id
  }

  lemma {:induction false} AddLoadsIds(lq: LoadQueue, sq: seq<Store>, id: nat, addrs: seq<Addr>)
    requires LoadsUpTo(lq, id)
    ensures LoadsUpTo(AddLoads(lq, sq, id, addrs).0, id)
  {
    if addrs != [] { AddLoadsIds(lq, sq, id, addrs[..|addrs| - 1]); }
  }

  // Stores of the youngest instruction are older than no load.
  lemma {:induction false} NewStoresForwarded(lq: LoadQueue, sq: seq<Store>, id: nat, addrs: seq<Addr>)
    requires AllForwarded(lq, sq) && LoadsUpTo(lq, id)
    ensures AllForwarded(lq, sq + NewStores(id, addrs))
  {
    var q := sq + NewStores(id, addrs);
    forall s | 0 <= s < |lq| && lq[s].Some? ensures Forwarded(lq[s].value, q) {
      assert Forwarded(lq[s].value, sq);
      forall j | 0 <= j < |q| && OlderStore(lq[s].value, q[j])
        ensures lq[s].value.producer.Some? && q[j].id <= lq[s].value.producer.value
      {
        if j < |sq| { assert OlderStore(lq[s].value, sq[j]); }
      }
    }
  }

  lemma {:induction false} DispatchForwarded(s: Lsq, ins: Instr)
    requires AllForwarded(s.lq, s.sq) && LoadsUpTo(s.lq, ins.id)
    ensures var r := DispatchMemory(s, ins); AllForwarded(r.lq, r.sq)
  {
    var (l, q, d) := AddLoads(s.lq, s.sq, ins.id, ins.srcMem);
    AddLoadsForwarded(s.lq, s.sq, ins.id, ins.srcMem);
    AddLoadsIds(s.lq, s.sq, ins.id, ins.srcMem);
    NewStoresForwarded(l, q, ins.id, ins.dstMem);
  }

  lemma {:induction false} LoadIdMember(lq: LoadQueue, s: nat)
    requires s < |lq| && lq[s].Some?
    ensures lq[s].value.id in LqIds(lq)
  {
    if s > 0 { LoadIdMember(lq[1..], s - 1); }
  }

  // Queued loads belong to instructions of the reorder buffer.
  lemma {:induction false} LoadHasOwner(s: Core, slot: nat)
    requires Inv(s) && slot < |s.lq| && s.lq[slot].Some?
    ensures exists i :: 0 <= i < |s.rob| && s.rob[i].id == s.lq[slot].value.id
  {
    OpenLsq(s);
    OpenLsqInv(LsqOf(s), s.retired, s.written);
    LoadIdMember(s.lq, slot);
    OwedMember(s.rob, s.lq[slot].value.id);
  }

  lemma {:induction false} LoadsBeforeDispatch(s: Core)
    requires Inv(s) && s.fe.dispatch != []
    ensures LoadsUpTo(s.lq, s.fe.dispatch[0].id)
  {
    OpenFlow(s);
    forall slot | 0 <= slot < |s.lq| && s.lq[slot].Some? ensures s.lq[slot].value.id <= s.fe.dispatch[0].id {
      LoadHasOwner(s, slot);
      var i :| 0 <= i < |s.rob| && s.rob[i].id == s.lq[slot].value.id;
      DispatchIsYoungest(s, |s.retired| + i);
      assert (s.retired + s.rob)[|s.retired| + i] == s.rob[i];
    }
  }

  // ------------------------------------------------------------------- cycles

  ghost predicate Ok(s: Core) {
    AllForwarded(s.lq, s.sq)
  }

  lemma {:induction false} RetireAllQueues(s: Core, bw: nat)
    requires RetireSafe(s.alloc, s.rob)
    ensures RetireAll(s, bw).lq == s.lq && RetireAll(s, bw).sq == s.sq
    decreases bw
  {
    if !(s.rob == [] || bw == 0 || !s.rob[0].completed) { RetireAllQueues(RetireOne(s), bw - 1); }
  }

  lemma {:induction false} FinishOk(s: State)
    requires Ok(s)
    ensures Ok(FinishInstructions(s))
  {
    var t := RetireRob(s, s.cfg.retireWidth);
    RetireAllQueues(s, s.cfg.retireWidth);
  }

  lemma {:induction false} StartOk(s: State)
    requires Ok(s)
    ensures Ok(StartInstructions(s))
  {
    var t := ExecuteInstructions(s);
    ExecuteShape(s);
    FewerForwarded(s.lq, s.sq, t.lq, t.sq);
  }

  lemma {:induction false} ReturnOk(s: State, l1iReturns: set<nat>, l1dReturns: seq<nat>)
    requires Ok(s)
    ensures Ok(HandleMemoryReturn(s, l1iReturns, l1dReturns))
  {
    var t := MarkStep(s, {}, l1iReturns);
    var r := LoadsStep(t, l1dReturns);
    ReturnBlocksFewer(t.rob, t.lq, t.cfg.blockBytes, TakeUpTo(l1dReturns, t.cfg.l1dBandwidth));
    FewerForwarded(t.lq, t.sq, r.lq, r.sq);
  }

  lemma {:induction false} CompleteAllFewer(s: Core, bw: nat, room: nat)
    ensures var r := CompleteStoresAll(s, bw, room); r.lq == s.lq && FewerStores(s.sq, r.sq)
    decreases bw
  {
    hide MayComplete;
    if !(s.sq == [] || bw == 0 || room == 0 || !MayComplete(s.sq[0], s.rob, s.now)) {
      CompleteAllFewer(CompleteOne(s), bw - 1, room - 1);
    }
  }

  lemma {:induction false} StoresOk(s: State, storeRoom: nat)
    requires Ok(s)
    ensures Ok(OperateStores(s, storeRoom))
  {
    var t := ExecuteStoresStep(s);
    FetchStoresFewer(LsqOf(s), FirstUnfetched(s.sq), FetchCount(s), s.now);
    FewerForwarded(s.lq, s.sq, t.lq, t.sq);
    var bw := s.cfg.sqWidth - FetchCount(s);
    CompleteAllFewer(t, bw, storeRoom);
    var r := CompleteStoresAll(t, bw, storeRoom);
    FewerForwarded(t.lq, t.sq, r.lq, r.sq);
  }

  lemma {:induction false} IssueOk(s: State, room: nat)
    requires Ok(s)
    ensures Ok(IssueStep(s, room))
  {
    var r := IssueStep(s, room);
    IssueSimilar(s.lq, 0, s.cfg.lqWidth, room, s.now);
    FewerForwarded(s.lq, s.sq, r.lq, r.sq);
  }

  lemma {:induction false} DispatchOk(s: State, bw: nat)
    requires Ok(s)
    ensures Ok(Dispatch(s, bw))
    decreases bw
  {
    if !(bw == 0 || !CanDispatch(s)) {
      LoadsBeforeDispatch(s);
      DispatchForwarded(LsqOf(s), s.fe.dispatch[0].(readyTime := Horizon(s)));
      DispatchOk(DispatchStep(s), bw - 1);
    }
  }

  lemma {:induction false} InitializeQueues(s: Core, fetched: seq<TraceInstr>, bw: nat)
    ensures var r := InitializeAll(s, fetched, bw); r.lq == s.lq && r.sq == s.sq
    decreases bw
  {
    if !(fetched == [] || bw == 0 || |s.fe.ifetch| >= s.cfg.ifetchSize) {
      InitializeQueues(EnterOne(s, fetched[0]), fetched[1..], bw - 1);
    }
  }

  lemma {:induction false} FetchOk(s: State, e: Env)
    requires Ok(s)
    ensures Ok(FetchInstructions(s, e))
  {
    var t := MarkStep(PromoteToDecode(s), e.dibHits, {});
    InitializeQueues(t, e.fetched, t.cfg.fetchWidth);
  }

  lemma {:induction false} BackEndOk(s: State, e: Env)
    requires Ok(s)
    ensures Ok(OperateBackEnd(s, e))
  {
    FinishOk(s);
    var t := FinishInstructions(s);
    StartOk(t);
    var u := StartInstructions(t);
    ReturnOk(u, e.l1iReturns, e.l1dReturns);
    var v := HandleMemoryReturn(u, e.l1iReturns, e.l1dReturns);
    StoresOk(v, e.storeRoom);
    IssueOk(OperateStores(v, e.storeRoom), e.loadRoom);
  }

  lemma {:induction false} FrontEndOk(s: State, e: Env)
    requires Ok(s)
    ensures Ok(OperateFrontEnd(s, e))
  {
    DispatchOk(s, s.cfg.dispatchWidth);
    FetchOk(MoveInstructions(s), e);
  }

  lemma {:induction false} CycleOk(s: State, e: Env)
    requires Ok(s)
    ensures Ok(Cycle(s, e))
  {
    var t := TickStep(s, e.dt, e.endWarmup);
    BackEndOk(t, e);
    FrontEndOk(OperateBackEnd(t, e), e);
  }

  lemma {:induction false} RunOk(s: State, es: seq<Env>)
    requires Ok(s)
    ensures Ok(Run(s, es))
  {
    if es != [] {
      RunOk(s, es[..|es| - 1]);
      CycleOk(Run(s, es[..|es| - 1]), es[|es| - 1]);
    }
  }

  // ------------------------------------------------------------- main theorems

  // A youngest queued store older than the load to exactly its address.
  predicate YoungestOlder(load: Load, sq: seq<Store>, j: nat) {
    && j < |sq| && OlderStore(load, sq[j])
    && forall k :: 0 <= k < |sq| && OlderStore(load, sq[k]) ==> sq[k].id <= sq[j].id
  }

  // A parked load keeps its slot, unissued, and is listed exactly once: by the
  // unexecuted store that will release it, a youngest of the older queued stores
  // to its address. While a load that is not parked holds a slot, none is queued.
  lemma {:induction false} ParkedLoadsWaitOnce(cfg: Config, registers: nat, lqSize: nat, es: seq<Env>, slot: nat)
    requires registers <= ARCH_REGS && slot < |Reached(cfg, registers, lqSize, es).lq|
    ensures var s := Reached(cfg, registers, lqSize, es);
            && Waits(s.sq)[slot] == (if Parked(s.lq[slot]) then 1 else 0)
            && (Parked(s.lq[slot]) ==>
                  && !s.lq[slot].value.issued
                  && exists j :: 0 <= j < |s.sq| && WaitsFor(s.lq, slot, s.sq[j]) && YoungestOlder(s.lq[slot].value, s.sq, j))
            && (s.lq[slot].Some? && !Parked(s.lq[slot]) ==>
                  forall j :: 0 <= j < |s.sq| ==> !OlderStore(s.lq[slot].value, s.sq[j]))
  {
    var s := Reached(cfg, registers, lqSize, es);
    StartInv(cfg, registers, lqSize);
    RunOk(Start(cfg, registers, lqSize), es);
    OpenLsq(s);
    OpenLsqInv(LsqOf(s), s.retired, s.written);
    ParkedOnce(s.lq, s.sq, slot);
    if Parked(s.lq[slot]) { WaitsForYoungest(s.lq, s.sq, slot); }
    if s.lq[slot].Some? && !Parked(s.lq[slot]) { assert Forwarded(s.lq[slot].value, s.sq); }
  }

  lemma {:induction false} WaitsForYoungest(lq: LoadQueue, sq: seq<Store>, slot: nat)
    requires AllForwarded(lq, sq) && slot < |lq| && lq[slot].Some? && lq[slot].value.producer.Some?
    requires exists j :: 0 <= j < |sq| && WaitsFor(lq, slot, sq[j])
    ensures exists j :: 0 <= j < |sq| && WaitsFor(lq, slot, sq[j]) && YoungestOlder(lq[slot].value, sq, j)
  {
    var j :| 0 <= j < |sq| && WaitsFor(lq, slot, sq[j]);
    assert Forwarded(lq[slot].value, sq);
    assert YoungestOlder(lq[slot].value, sq, j);
  }
}
