// The out-of-order core as the program performs it: buffers, queues and
// register tables updated in place, one method for each sub-step of
// O3_CPU::operate (champsim/src/ooo_cpu.cc). Each method is proved to do what
// the corresponding step of O3Core says, and every assertion of the program
// is an assertion here.
module O3Cpu {
  import opened Prelude
  import opened Pipeline
  import opened RegisterAllocation
  import opened ReorderBuffer
  import opened LoadStoreQueue
  import opened LoadStoreInvariant
  import opened FrontEnd
  import opened O3Core

  // ------------------------------------------------------------------ searches

  // std::partition_point: halving the range until it is empty.
  method PartitionPoint(rob: seq<Instr>, id: nat) returns (first: nat)
    requires SortedIds(rob)
    ensures first == FirstNotBefore(rob, id)
  {
    first := 0;
    var len: nat := |rob|;
    while len > 0
      invariant first + len <= |rob|
      invariant forall j :: 0 <= j < first ==> rob[j].id < id
      invariant forall j :: first + len <= j < |rob| ==> rob[j].id >= id
    {
      var half := len / 2;
      var middle := first + half;
      if rob[middle].id < id {
        first := middle + 1;
        len := len - half - 1;
      } else {
        len := half;
      }
    }
    BoundaryIsUnique(rob, id, first);
  }

  lemma {:induction false} BoundaryIsUnique(rob: seq<Instr>, id: nat, i: nat)
    requires i <= |rob| && (forall j :: 0 <= j < i ==> rob[j].id < id)
    requires forall j :: i <= j < |rob| ==> rob[j].id >= id
    ensures i == FirstNotBefore(rob, id)
  {
    var k := FirstNotBefore(rob, id);
    assert i < |rob| ==> rob[i].id >= id;
  }

  // The same halving search over the store queue, by whether a store has executed.
  method UnfetchedBegin(sq: seq<Store>) returns (first: nat)
    requires FetchedFirst(sq)
    ensures first == FirstUnfetched(sq)
  {
    first := 0;
    var len: nat := |sq|;
    while len > 0
      invariant first + len <= |sq|
      invariant forall j :: 0 <= j < first ==> sq[j].fetched
      invariant forall j :: first + len <= j < |sq| ==> !sq[j].fetched
    {
      var half := len / 2;
      var middle := first + half;
      if sq[middle].fetched {
        first := middle + 1;
        len := len - half - 1;
      } else {
        len := half;
      }
    }
    ghost var boundary := FirstUnfetched(sq);
    assert first < |sq| ==> !sq[first].fetched;
    assert boundary < |sq| ==> !sq[boundary].fetched;
  }

  // std::max_element with the comparator of do_memory_scheduling.
  method MaxElement(sq: seq<Store>, addr: Addr) returns (largest: nat)
    requires sq != []
    ensures largest == ForwardFrom(sq, addr)
  {
    largest := 0;
    var j := 1;
    while j < |sq|
      invariant largest < j <= |sq|
      invariant MaxScan(sq, addr, largest, j) == ForwardFrom(sq, addr)
    {
      if LoadStoreQueue.Below(sq[largest], sq[j], addr) { largest := j; }
      j := j + 1;
    }
  }

  // Number of source registers that renaming would have to give a register.
  method CountUnmapped(regs: RegisterAllocator, srcs: seq<int>) returns (n: nat)
    requires regs.Valid() && ArchRegs(srcs)
    ensures n == Unmapped(regs.View().front, srcs)
  {
    n := 0;
    for k := 0 to |srcs|
      invariant n == Unmapped(regs.View().front, srcs[..k])
    {
      if regs.frontendRAT[srcs[k]] == UNMAPPED { n := n + 1; }
      assert srcs[..k + 1][..k] == srcs[..k];
    }
    assert srcs[..|srcs|] == srcs;
  }

  // ------------------------------------------------------- loops over registers

  lemma {:induction false} UnmappedPrefix(front: seq<int>, srcs: seq<int>, k: nat)
    requires |front| == ARCH_REGS && ArchRegs(srcs) && k <= |srcs|
    ensures Unmapped(front, srcs[..k]) <= Unmapped(front, srcs)
  {
    if k == |srcs| {
      assert srcs[..k] == srcs;
    } else {
      var n := |srcs| - 1;
      UnmappedPrefix(front, srcs[..n], k);
      assert srcs[..n][..k] == srcs[..k];
    }
  }

  method RenameSourceRegisters(regs: RegisterAllocator, srcs: seq<int>) returns (names: seq<int>)
    requires regs.Valid() && ArchRegs(srcs) && Unmapped(regs.View().front, srcs) <= |regs.freeRegisters|
    modifies regs, regs.frontendRAT, regs.backendRAT, regs.physicalRegisterFile
    ensures regs.Valid() && (regs.View(), names) == RenameSources(old(regs.View()), srcs)
  {
    ghost var a := regs.View();
    names := [];
    for k := 0 to |srcs|
      invariant regs.Valid() && Unmapped(a.front, srcs[..k]) <= |a.free|
      invariant (regs.View(), names) == RenameSources(a, srcs[..k])
    {
      assert srcs[..k + 1][..k] == srcs[..k];
      UnmappedPrefix(a.front, srcs, k + 1);
      var p := regs.RenameSrcRegister(srcs[k]);
      names := names + [p];
    }
    assert srcs[..|srcs|] == srcs;
  }

  method RenameDestRegisters(regs: RegisterAllocator, dsts: seq<int>, id: nat) returns (names: seq<int>)
    requires regs.Valid() && ArchRegs(dsts) && |dsts| <= |regs.freeRegisters|
    modifies regs, regs.frontendRAT, regs.physicalRegisterFile
    ensures regs.Valid() && (regs.View(), names) == RenameDests(old(regs.View()), dsts, id)
  {
    ghost var a := regs.View();
    names := [];
    for k := 0 to |dsts|
      invariant regs.Valid()
      invariant (regs.View(), names) == RenameDests(a, dsts[..k], id)
    {
      assert dsts[..k + 1][..k] == dsts[..k];
      var p := regs.RenameDestRegister(dsts[k], id);
      names := names + [p];
    }
    assert dsts[..|dsts|] == dsts;
  }

  method CompleteRegisters(regs: RegisterAllocator, dsts: seq<int>)
    requires regs.Valid() && AllInFile(regs.View(), dsts)
    modifies regs.physicalRegisterFile
    ensures regs.Valid() && regs.View() == CompleteDests(old(regs.View()), dsts)
  {
    ghost var a := regs.View();
    for k := 0 to |dsts|
      invariant regs.Valid() && regs.View() == CompleteDests(a, dsts[..k])
    {
      assert dsts[..k + 1][..k] == dsts[..k];
      regs.CompleteDestRegister(dsts[k]);
    }
    assert dsts[..|dsts|] == dsts;
  }

  method RetireRegisters(regs: RegisterAllocator, dsts: seq<int>)
    requires regs.Valid() && AllInFile(regs.View(), dsts)
    modifies regs, regs.backendRAT, regs.physicalRegisterFile
    ensures regs.Valid() && regs.View() == RetireDests(old(regs.View()), dsts)
  {
    ghost var a := regs.View();
    for k := 0 to |dsts|
      invariant regs.Valid() && regs.View() == RetireDests(a, dsts[..k])
    {
      assert dsts[..k + 1][..k] == dsts[..k];
      regs.RetireDestRegister(dsts[k]);
    }
    assert dsts[..|dsts|] == dsts;
  }

  // ----------------------------------------------------------------- the core

  class O3Cpu {
    const cfg: Config
    const regs: RegisterAllocator
    const loadQueue: array<Option<Load>>
    var currentTime: int
    var warmup: bool
    var ifetchBuffer: seq<Instr>
    var dibHitBuffer: seq<Instr>
    var decodeBuffer: seq<Instr>
    var dispatchBuffer: seq<Instr>
    var rob: seq<Instr>
    var storeQueue: seq<Store>
    ghost var retired: seq<Instr>
    ghost var written: seq<StoreKey>
    ghost var trace: seq<Op>
    var nextId: nat

    ghost const Repr: set<object> := {this, regs, regs.frontendRAT, regs.backendRAT, regs.physicalRegisterFile, loadQueue}

    ghost predicate Valid()
      reads Repr
    {
      regs.Valid()
    }

    ghost function View(): Core
      reads Repr
    {
      Core(cfg, currentTime, warmup, Buffers(ifetchBuffer, dibHitBuffer, decodeBuffer, dispatchBuffer), rob,
           regs.View(), loadQueue[..], storeQueue, retired, written, trace, nextId)
    }

    constructor (cfg: Config, registers: nat, lqSize: nat)
      requires registers <= ARCH_REGS
      ensures Valid() && View() == Start(cfg, registers, lqSize)
      ensures fresh(Repr)
    {
      this.cfg := cfg;
      regs := new RegisterAllocator(registers);
      loadQueue := new Option<Load>[lqSize](_ => None);
      currentTime, warmup, nextId := 0, true, 0;
      ifetchBuffer, dibHitBuffer, decodeBuffer, dispatchBuffer, rob := [], [], [], [], [];
      storeQueue := [];
      retired, written, trace := [], [], [];
      new;
      assert loadQueue[..] == EmptySlots(lqSize);
    }

    // ------------------------------------------------------------- retirement

    method RetireRob()
      requires Valid() && RetireSafe(regs.View(), rob)
      modifies Repr
      ensures Valid() && View() == RetireAll(old(View()), cfg.retireWidth)
    {
      hide RetireAll, RetireEntries, Shape;
      var n := 0;
      while n < |rob| && n < cfg.retireWidth && rob[n].completed
        invariant n <= |rob| && n <= cfg.retireWidth
        invariant forall k :: 0 <= k < n ==> rob[k].completed
      {
        n := n + 1;
      }
      RetireAllSpan(View(), cfg.retireWidth, n);
      CommitEntries(rob[..n]);
      retired := retired + rob[..n];
      rob := rob[n..];
    }

    method CommitEntries(xs: seq<Instr>)
      requires Valid() && forall k :: 0 <= k < |xs| ==> AllInFile(regs.View(), xs[k].dst)
      modifies regs, regs.backendRAT, regs.physicalRegisterFile
      ensures Valid() && regs.View() == RetireEntries(old(regs.View()), xs)
    {
      ghost var a := regs.View();
      for i := 0 to |xs|
        invariant Valid() && regs.View() == RetireEntries(a, xs[..i])
      {
        assert xs[..i + 1][..i] == xs[..i];
        RetireRegisters(regs, xs[i].dst);
      }
      assert xs[..|xs|] == xs;
    }

    // ------------------------------------------------------------- completion

    method CompleteInflightInstruction()
      requires Valid() && ExecutedInFile(regs.View(), rob)
      modifies this`rob, regs.physicalRegisterFile
      ensures Valid()
      ensures (regs.View(), rob) == CompleteFrom(old(regs.View()), old(rob), 0, cfg.execWidth, currentTime)
    {
      var bandwidth: nat := cfg.execWidth;
      var i := 0;
      ghost var result := CompleteFrom(regs.View(), rob, 0, cfg.execWidth, currentTime);
      while i < |rob| && bandwidth > 0
        invariant Valid() && i <= |rob| && ExecutedInFile(regs.View(), rob)
        invariant CompleteFrom(regs.View(), rob, i, bandwidth, currentTime) == result
        decreases |rob| - i
      {
        if CanComplete(rob[i], currentTime) {
          CompleteRegisters(regs, rob[i].dst);
          rob := MarkComplete(rob, i);
          bandwidth := bandwidth - 1;
        }
        i := i + 1;
      }
    }

    // -------------------------------------------------------------- execution

    function DelayedBy(latency: nat): int
      reads this
    {
      currentTime + if warmup then 0 else latency
    }

    method DoExecution(i: nat)
      requires Valid() && i < |rob|
      modifies this`rob, this`storeQueue, loadQueue
      ensures Window(rob, loadQueue[..], storeQueue)
           == ExecuteAt(old(Window(rob, loadQueue[..], storeQueue)), i, old(DelayedBy(cfg.execLatency)))
    {
      var id, readyTime := rob[i].id, DelayedBy(cfg.execLatency);
      rob := rob[i := Execute(rob[i], readyTime)];
      WakeLoadQueue(id, readyTime);
      WakeStoreQueue(id, readyTime);
    }

    method WakeLoadQueue(id: nat, readyTime: int)
      modifies loadQueue
      ensures loadQueue[..] == WakeLoads(old(loadQueue[..]), id, readyTime)
    {
      for k := 0 to loadQueue.Length
        invariant forall m :: 0 <= m < k ==> loadQueue[m] == WakeLoads(old(loadQueue[..]), id, readyTime)[m]
        invariant forall m :: k <= m < loadQueue.Length ==> loadQueue[m] == old(loadQueue[m])
      {
        if loadQueue[k].Some? && loadQueue[k].value.id == id {
          loadQueue[k] := Some(loadQueue[k].value.(ready := Some(readyTime)));
        }
      }
    }

    method WakeStoreQueue(id: nat, readyTime: int)
      modifies this`storeQueue
      ensures storeQueue == WakeStores(old(storeQueue), id, readyTime)
    {
      for k := 0 to |storeQueue|
        invariant |storeQueue| == |old(storeQueue)|
        invariant forall m :: 0 <= m < k ==> storeQueue[m] == WakeStores(old(storeQueue), id, readyTime)[m]
        invariant forall m :: k <= m < |storeQueue| ==> storeQueue[m] == old(storeQueue)[m]
      {
        if storeQueue[k].id == id {
          storeQueue := storeQueue[k := storeQueue[k].(ready := Some(readyTime))];
        }
      }
    }

    predicate Ready(srcs: seq<int>)
      requires Valid() && AllInFile(regs.View(), srcs)
      reads Repr
    {
      forall k :: 0 <= k < |srcs| ==> regs.physicalRegisterFile[srcs[k]].valid
    }

    method ExecuteInstruction()
      requires Valid() && forall k :: 0 <= k < |rob| && rob[k].scheduled ==> AllInFile(regs.View(), rob[k].src)
      modifies this`rob, this`storeQueue, loadQueue
      ensures View() == ExecuteReady(old(View()))
    {
      var bandwidth: nat := cfg.execWidth;
      var i := 0;
      ghost var result := ExecuteFrom(regs.View(), Window(rob, loadQueue[..], storeQueue), 0, cfg.execWidth, currentTime,
                                      DelayedBy(cfg.execLatency));
      while i < |rob| && bandwidth > 0
        invariant Valid() && i <= |rob|
        invariant forall k :: 0 <= k < |rob| && rob[k].scheduled ==> AllInFile(regs.View(), rob[k].src)
        invariant ExecuteFrom(regs.View(), Window(rob, loadQueue[..], storeQueue), i, bandwidth, currentTime,
                              DelayedBy(cfg.execLatency)) == result
        decreases |rob| - i
      {
        if rob[i].scheduled && !rob[i].executed && rob[i].readyTime <= currentTime && Ready(rob[i].src) {
          DoExecution(i);
          bandwidth := bandwidth - 1;
        }
        i := i + 1;
      }
    }

    // ------------------------------------------------------------- scheduling

    method DoScheduling(i: nat)
      requires Valid() && i < |rob| && RegsInRange(rob[i]) && Need(regs.View(), rob[i]) <= |regs.freeRegisters|
      modifies this`rob, regs, regs.frontendRAT, regs.backendRAT, regs.physicalRegisterFile
      ensures Valid()
      ensures var r := ReorderBuffer.DoScheduling(old(regs.View()), old(rob[i])); regs.View() == r.0 && rob == old(rob)[i := r.1]
    {
      var src := RenameSourceRegisters(regs, rob[i].src);
      var dst := RenameDestRegisters(regs, rob[i].dst, rob[i].id);
      rob := rob[i := rob[i].(src := src, dst := dst, scheduled := true)];
    }

    // One turn of the loop. The entry is renamed in place if it is ready.
    method ScheduleEntry(i: nat, bandwidth: nat) returns (left: nat)
      requires Valid() && regs.physicalRegisterFile.Length <= ARCH_REGS && bandwidth > 0
      requires forall k :: 0 <= k < |rob| ==> RegsInRange(rob[k])
      requires i < |rob| && Need(regs.View(), rob[i]) <= |regs.freeRegisters|
      modifies this`rob, regs, regs.frontendRAT, regs.backendRAT, regs.physicalRegisterFile
      ensures Valid() && |rob| == |old(rob)| && forall k :: 0 <= k < |rob| ==> RegsInRange(rob[k])
      ensures ScheduleFrom(regs.View(), rob, i + 1, left, currentTime)
           == ScheduleFrom(old(regs.View()), old(rob), i, bandwidth, currentTime)
    {
      ghost var step := ScheduleStep(regs.View(), rob, i, currentTime);
      if !rob[i].scheduled && rob[i].readyTime <= currentTime { DoScheduling(i); }
      assert (regs.View(), rob) == step;
      left := if rob[i].executed then bandwidth else bandwidth - 1;
    }

    method ScheduleInstruction()
      requires Valid() && regs.physicalRegisterFile.Length <= ARCH_REGS
      requires forall k :: 0 <= k < |rob| ==> RegsInRange(rob[k])
      modifies this`rob, regs, regs.frontendRAT, regs.backendRAT, regs.physicalRegisterFile
      ensures Valid()
      ensures (regs.View(), rob) == ScheduleFrom(old(regs.View()), old(rob), 0, cfg.schedulerSize, currentTime)
    {
      hide ScheduleStep;
      var bandwidth: nat := cfg.schedulerSize;
      ghost var result := ScheduleFrom(regs.View(), rob, 0, cfg.schedulerSize, currentTime);
      var i := 0;
      while i < |rob| && bandwidth > 0
        invariant Valid() && i <= |rob| && forall k :: 0 <= k < |rob| ==> RegsInRange(rob[k])
        invariant ScheduleFrom(regs.View(), rob, i, bandwidth, currentTime) == result
        decreases |rob| - i
      {
        var sourcesToAllocate := CountUnmapped(regs, rob[i].src);
        if |regs.freeRegisters| < sourcesToAllocate + |rob[i].dst| { break; }
        bandwidth := ScheduleEntry(i, bandwidth);
        i := i + 1;
      }
    }

    // --------------------------------------------------- memory transactions

    // LSQ_ENTRY::finish: the entry looks its instruction up by id.
    method FinishEntry(id: nat)
      requires SortedIds(rob) && FinishSafe(rob, id)
      modifies this`rob
      ensures rob == Finish(old(rob), id)
    {
      var i := PartitionPoint(rob, id);
      assert i < |rob|;
      assert rob[i].id == id;
      rob := rob[i := CountMemOp(rob[i])];
      assert rob[i].memDone <= rob[i].NumMemOps();
    }

    // One response of the L1D finishes every issued load of its block.
    method ReturnResponse(block: nat)
      requires BlockSafe(rob, loadQueue[..], cfg.blockBytes, block)
      modifies this`rob, loadQueue
      ensures (rob, loadQueue[..]) == ReturnBlock(old(rob), old(loadQueue[..]), loadQueue.Length, cfg.blockBytes, block)
    {
      ghost var rob0, lq0 := rob, loadQueue[..];
      for n := 0 to loadQueue.Length
        invariant (rob, loadQueue[..]) == ReturnBlock(rob0, lq0, n, cfg.blockBytes, block)
      {
        assert AnswerSafe(rob, loadQueue[..][n], cfg.blockBytes, block);
        if loadQueue[n].Some? && loadQueue[n].value.issued && loadQueue[n].value.addr / cfg.blockBytes == block {
          FinishEntry(loadQueue[n].value.id);
          loadQueue[n] := None;
        }
      }
    }

    method HandleMemoryReturn(blocks: seq<nat>)
      requires BlocksSafe(rob, loadQueue[..], cfg.blockBytes, TakeUpTo(blocks, cfg.l1dBandwidth))
      modifies this`rob, loadQueue
      ensures (rob, loadQueue[..])
           == ReturnBlocks(old(rob), old(loadQueue[..]), cfg.blockBytes, TakeUpTo(blocks, cfg.l1dBandwidth))
    {
      ghost var rob0, lq0, taken := rob, loadQueue[..], TakeUpTo(blocks, cfg.l1dBandwidth);
      var m := 0;
      while m < |blocks| && m < cfg.l1dBandwidth
        invariant m <= |taken|
        invariant (rob, loadQueue[..]) == ReturnBlocks(rob0, lq0, cfg.blockBytes, taken[..m])
        decreases |blocks| - m
      {
        assert BlockSafe(rob, loadQueue[..], cfg.blockBytes, taken[m]);
        assert taken[..m + 1][..m] == taken[..m];
        ReturnResponse(blocks[m]);
        m := m + 1;
      }
      assert taken[..m] == taken;
    }

    // ---------------------------------------------------- load and store queues

    // A store that executes forwards its data to the loads that wait for it.
    method DoFinishStore(st: Store)
      requires FinishStoreSafe(rob, loadQueue[..], st)
      modifies this`rob, loadQueue
      ensures (rob, loadQueue[..]) == FinishStore(old(rob), old(loadQueue[..]), st)
    {
      hide SortedIds, Finish, FinishSafe;
      OpenSafe(rob, loadQueue[..], st);
      FinishEntry(st.id);
      ghost var rob0, lq0 := rob, loadQueue[..];
      for k := 0 to |st.waiters|
        invariant (rob, loadQueue[..]) == Release(rob0, lq0, st.waiters[..k])
      {
        var dependent := st.waiters[k];
        assert WaiterSafe(rob, loadQueue[..], st, dependent);
        assert st.waiters[..k + 1][..k] == st.waiters[..k];
        assert loadQueue[dependent].Some?;
        assert loadQueue[dependent].value.producer == Some(st.id);
        FinishEntry(loadQueue[dependent].value.id);
        loadQueue[dependent] := None;
      }
      assert st.waiters[..|st.waiters|] == st.waiters;
    }

    // How many stores from the first unexecuted one on may execute now.
    method StoresToExecute(begin: nat) returns (n: nat)
      requires begin <= |storeQueue|
      ensures n == FetchSpan(storeQueue, begin, cfg.sqWidth, currentTime)
    {
      ghost var span := FetchSpan(storeQueue, begin, cfg.sqWidth, currentTime);
      n := 0;
      while begin + n < |storeQueue| && n < cfg.sqWidth && !storeQueue[begin + n].fetched && Due(storeQueue[begin + n].ready, currentTime)
        invariant begin + n <= |storeQueue| && n <= cfg.sqWidth
        invariant n + FetchSpan(storeQueue, begin + n, cfg.sqWidth - n, currentTime) == span
      {
        n := n + 1;
      }
    }

    method ExecuteStore(j: nat)
      requires j < |storeQueue| && FinishStoreSafe(rob, loadQueue[..], storeQueue[j])
      modifies this`rob, this`storeQueue, loadQueue
      ensures Lsq(rob, loadQueue[..], storeQueue) == FetchOne(old(Lsq(rob, loadQueue[..], storeQueue)), j, currentTime)
    {
      DoFinishStore(storeQueue[j]);
      storeQueue := storeQueue[j := storeQueue[j].(fetched := true, ready := Some(currentTime))];
    }

    method ExecuteStores(begin: nat, n: nat)
      requires begin + n <= |storeQueue| && StoresSafe(Lsq(rob, loadQueue[..], storeQueue), begin, n, currentTime)
      modifies this`rob, this`storeQueue, loadQueue
      ensures Lsq(rob, loadQueue[..], storeQueue)
           == FetchStores(old(Lsq(rob, loadQueue[..], storeQueue)), begin, n, currentTime)
    {
      hide FetchOne;
      ghost var result := FetchStores(Lsq(rob, loadQueue[..], storeQueue), begin, n, currentTime);
      for k := 0 to n
        invariant begin + n <= |storeQueue|
        invariant StoresSafe(Lsq(rob, loadQueue[..], storeQueue), begin + k, n - k, currentTime)
        invariant FetchStores(Lsq(rob, loadQueue[..], storeQueue), begin + k, n - k, currentTime) == result
      {
        ExecuteStore(begin + k);
      }
    }

    method ExecuteReadyStores() returns (executed: nat)
      requires Valid() && FetchedFirst(storeQueue)
      requires StoresSafe(LsqOf(View()), FirstUnfetched(storeQueue), FetchCount(View()), currentTime)
      modifies this`rob, this`storeQueue, loadQueue
      ensures View() == O3Core.ExecuteStores(old(View())) && executed == FetchCount(old(View()))
    {
      var begin := UnfetchedBegin(storeQueue);
      executed := StoresToExecute(begin);
      ExecuteStores(begin, executed);
    }

    // Stores of retired instructions, handed to the L1D while it has room.
    method CompleteStores(bandwidth: nat, room: nat)
      requires Valid()
      modifies this`storeQueue, this`written
      ensures View() == CompleteStoresAll(old(View()), bandwidth, room)
    {
      var n := 0;
      while n < |storeQueue| && n < bandwidth && MayComplete(storeQueue[n], rob, currentTime) && n < room
        invariant n <= |storeQueue| && n <= bandwidth && n <= room
        invariant forall k :: 0 <= k < n ==> MayComplete(storeQueue[k], rob, currentTime)
      {
        n := n + 1;
      }
      CompleteStoresSpan(View(), bandwidth, room, n);
      written := written + Keys(storeQueue[..n]);
      storeQueue := storeQueue[n..];
    }

    // Ready loads that wait for no store, issued while the L1D has room.
    method IssueReadyLoads(room: nat)
      modifies loadQueue
      ensures loadQueue[..] == IssueLoads(old(loadQueue[..]), 0, cfg.lqWidth, room, currentTime)
    {
      var bandwidth: nat, left := cfg.lqWidth, room;
      ghost var result := IssueLoads(loadQueue[..], 0, cfg.lqWidth, room, currentTime);
      for k := 0 to loadQueue.Length
        invariant IssueLoads(loadQueue[..], k, bandwidth, left, currentTime) == result
      {
        if bandwidth > 0 && MayIssue(loadQueue[k], currentTime) && left > 0 {
          loadQueue[k] := Some(loadQueue[k].value.(issued := true));
          bandwidth, left := bandwidth - 1, left - 1;
        }
      }
    }

    // --------------------------------------------------------------- dispatch

    method FreeLoadSlots() returns (n: nat)
      ensures n == CountEmpty(loadQueue[..])
    {
      n := 0;
      ghost var lq := loadQueue[..];
      var k: nat := loadQueue.Length;
      assert lq[k..] == [];
      while k > 0
        invariant k <= loadQueue.Length && n == CountEmpty(lq[k..])
      {
        k := k - 1;
        assert lq[k..][1..] == lq[k + 1..];
        if loadQueue[k].None? { n := n + 1; }
      }
      assert lq[0..] == lq;
    }

    method FindEmptySlot() returns (slot: nat)
      ensures slot == FirstEmpty(loadQueue[..])
    {
      slot := 0;
      while slot < loadQueue.Length && loadQueue[slot].Some?
        invariant slot <= loadQueue.Length && forall t :: 0 <= t < slot ==> loadQueue[t].Some?
      {
        slot := slot + 1;
      }
      ghost var first := FirstEmpty(loadQueue[..]);
      assert first < loadQueue.Length ==> loadQueue[..][first].None?;
    }

    // One load of an instruction: it takes a slot, and waits for the youngest
    // older store to its address if that store has not executed.
    method AddLoadEntry(id: nat, addr: Addr) returns (finished: nat)
      requires FirstEmpty(loadQueue[..]) < loadQueue.Length
      requires forall j :: 0 <= j < |storeQueue| ==> storeQueue[j].id < id
      modifies this`storeQueue, loadQueue
      ensures (loadQueue[..], storeQueue, finished) == AddLoad(old(loadQueue[..]), old(storeQueue), id, addr)
    {
      finished := 0;
      var slot := FindEmptySlot();
      assert slot < loadQueue.Length;
      ghost var lq := loadQueue[..];
      loadQueue[slot] := Some(Load(addr, id, None, false, None));
      if |storeQueue| > 0 {
        var m := MaxElement(storeQueue, addr);
        if storeQueue[m].addr == addr {
          if storeQueue[m].fetched {
            finished := 1;
            loadQueue[slot] := None;
            assert loadQueue[..] == lq;
          } else {
            assert storeQueue[m].id < id;
            storeQueue := storeQueue[m := storeQueue[m].(waiters := storeQueue[m].waiters + [slot])];
            loadQueue[slot] := Some(Load(addr, id, None, false, Some(storeQueue[m].id)));
            assert loadQueue[..] == lq[slot := loadQueue[slot]];
          }
        }
      }
    }

    method AddLoadEntries(id: nat, addrs: seq<Addr>) returns (finished: nat)
      requires |addrs| <= CountEmpty(loadQueue[..])
      requires forall j :: 0 <= j < |storeQueue| ==> storeQueue[j].id < id
      modifies this`storeQueue, loadQueue
      ensures (loadQueue[..], storeQueue, finished) == AddLoads(old(loadQueue[..]), old(storeQueue), id, addrs)
      ensures finished <= |addrs|
    {
      hide AddLoad;
      ghost var lq, sq := loadQueue[..], storeQueue;
      finished := 0;
      for k := 0 to |addrs|
        invariant (loadQueue[..], storeQueue, finished) == AddLoads(lq, sq, id, addrs[..k])
        invariant |addrs| <= CountEmpty(loadQueue[..]) + k && finished <= k
        invariant forall j :: 0 <= j < |storeQueue| ==> storeQueue[j].id < id
      {
        assert addrs[..k + 1][..k] == addrs[..k];
        AddLoadShape(loadQueue[..], storeQueue, id, addrs[k]);
        EmptyExists(loadQueue[..]);
        var done := AddLoadEntry(id, addrs[k]);
        finished := finished + done;
      }
      assert addrs[..|addrs|] == addrs;
    }

    method AddStoreEntries(id: nat, addrs: seq<Addr>)
      modifies this`storeQueue
      ensures storeQueue == old(storeQueue) + NewStores(id, addrs)
    {
      for k := 0 to |addrs|
        invariant storeQueue == old(storeQueue) + NewStores(id, addrs[..k])
      {
        assert addrs[..k + 1][..k] == addrs[..k];
        storeQueue := storeQueue + [Store(addrs[k], id, None, false, [])];
      }
      assert addrs[..|addrs|] == addrs;
    }

    method DoMemoryScheduling(ins: Instr)
      requires ins.memDone == 0 && |ins.srcMem| <= CountEmpty(loadQueue[..])
      requires forall j :: 0 <= j < |storeQueue| ==> storeQueue[j].id < ins.id
      modifies this`rob, this`storeQueue, loadQueue
      ensures Lsq(rob, loadQueue[..], storeQueue) == DispatchMemory(old(Lsq(rob, loadQueue[..], storeQueue)), ins)
    {
      var finished := AddLoadEntries(ins.id, ins.srcMem);
      assert ins.memDone + finished <= ins.NumMemOps();
      AddStoreEntries(ins.id, ins.dstMem);
      rob := rob + [ins.(memDone := ins.memDone + finished)];
    }

    method DispatchFront()
      requires Valid() && dispatchBuffer != [] && dispatchBuffer[0].memDone == 0
      requires |dispatchBuffer[0].srcMem| <= CountEmpty(loadQueue[..])
      requires forall j :: 0 <= j < |storeQueue| ==> storeQueue[j].id < dispatchBuffer[0].id
      modifies this`rob, this`dispatchBuffer, this`storeQueue, loadQueue
      ensures View() == DispatchOne(old(View()))
    {
      var ins := dispatchBuffer[0].(readyTime := DelayedBy(cfg.schedulingLatency));
      dispatchBuffer := dispatchBuffer[1..];
      DoMemoryScheduling(ins);
    }

    method DispatchInstruction()
      requires Valid() && DispatchSafe(storeQueue, dispatchBuffer)
      modifies this`rob, this`dispatchBuffer, this`storeQueue, loadQueue
      ensures View() == DispatchAll(old(View()), cfg.dispatchWidth)
    {
      var bandwidth: nat := cfg.dispatchWidth;
      ghost var result := DispatchAll(View(), cfg.dispatchWidth);
      var freeSlots := FreeLoadSlots();
      while bandwidth > 0 && dispatchBuffer != [] && dispatchBuffer[0].readyTime <= currentTime && |rob| != cfg.robSize
            && freeSlots >= |dispatchBuffer[0].srcMem| && |dispatchBuffer[0].dstMem| + |storeQueue| <= cfg.sqSize
        invariant Valid() && DispatchSafe(storeQueue, dispatchBuffer) && freeSlots == CountEmpty(loadQueue[..])
        invariant DispatchAll(View(), bandwidth) == result
      {
        DispatchStaysSafe(View());
        DispatchFront();
        bandwidth := bandwidth - 1;
        freeSlots := FreeLoadSlots();
      }
    }

    // -------------------------------------------------------------- front end

    // Three loops choose how many instructions to take from each buffer; what
    // they take is merged into program order.
    method DecodeInstruction()
      requires Valid()
      modifies this`dispatchBuffer, this`dibHitBuffer, this`decodeBuffer
      ensures View().fe == Decoded(old(View()))
    {
      var slots: nat := Min(cfg.dibInorderWidth, Max(0, cfg.dispatchSize - |dispatchBuffer|));
      assert slots == DecodeSlots(View());
      var taken := TakeInOrder(slots);
      MoveToDispatch(taken, DelayedBy(cfg.dispatchLatency));
    }

    method MoveToDispatch(taken: Cursor, readyTime: int)
      requires Valid() && taken.dib <= |dibHitBuffer| && taken.dec <= |decodeBuffer|
      modifies this`dispatchBuffer, this`dibHitBuffer, this`decodeBuffer
      ensures View().fe == Decode(old(View()).fe, taken, readyTime)
    {
      var hits := SetReady(dibHitBuffer[..taken.dib], readyTime);
      var decoded := SetReady(decodeBuffer[..taken.dec], readyTime);
      dispatchBuffer := dispatchBuffer + Merge(hits, decoded);
      decodeBuffer := decodeBuffer[taken.dec..];
      dibHitBuffer := dibHitBuffer[taken.dib..];
    }

    method TakeInOrder(slots: nat) returns (taken: Cursor)
      ensures taken == DecodeCursor(Buffers(ifetchBuffer, dibHitBuffer, decodeBuffer, dispatchBuffer), slots, cfg.decodeWidth, currentTime)
    {
      var dib, dec := dibHitBuffer, decodeBuffer;
      var c := Cursor(0, 0, slots, cfg.decodeWidth);
      ghost var both := TakeBoth(dib, dec, c, currentTime);
      while TakesFirst(dib, dec, c, currentTime)
        invariant c.dib <= |dib| && c.dec <= |dec| && TakeBoth(dib, dec, c, currentTime) == both
        decreases c.slots
      {
        if dib[c.dib].id < dec[c.dec].id {
          c := c.(dib := c.dib + 1, slots := c.slots - 1);
        } else {
          c := c.(dec := c.dec + 1, slots := c.slots - 1, decoders := c.decoders - 1);
        }
      }
      ghost var hits := TakeDib(dib, dec, c, currentTime);
      while TakesDib(dib, dec, c, currentTime)
        invariant c.dib <= |dib| && c.dec <= |dec| && TakeDib(dib, dec, c, currentTime) == hits
        decreases c.slots
      {
        c := c.(dib := c.dib + 1, slots := c.slots - 1);
      }
      ghost var all := TakeDecode(dib, dec, c, currentTime);
      while TakesDecode(dib, dec, c, currentTime)
        invariant c.dib <= |dib| && c.dec <= |dec| && TakeDecode(dib, dec, c, currentTime) == all
        decreases c.slots
      {
        c := c.(dec := c.dec + 1, slots := c.slots - 1, decoders := c.decoders - 1);
      }
      taken := c;
    }

    // Fetched instructions leave for one of two buffers, as many as both have room for.
    method PromoteToDecode()
      requires Valid()
      modifies this`ifetchBuffer, this`dibHitBuffer, this`decodeBuffer
      ensures View().fe == Promoted(old(View()))
    {
      hide Select;
      var bandwidth: nat :=
        Min(cfg.fetchWidth, Min(Max(0, cfg.dibHitSize - |dibHitBuffer|), Max(0, cfg.decodeSize - |decodeBuffer|)));
      var n := FetchedReady(bandwidth);
      var window := ifetchBuffer[..n];
      dibHitBuffer := dibHitBuffer + Select(window, true, currentTime + cfg.dibHitLatency);
      decodeBuffer := decodeBuffer + Select(window, false, DelayedBy(cfg.decodeLatency));
      ifetchBuffer := ifetchBuffer[n..];
    }

    method FetchedReady(bandwidth: nat) returns (n: nat)
      ensures n == FetchedSpan(ifetchBuffer, bandwidth, currentTime)
    {
      ghost var span := FetchedSpan(ifetchBuffer, bandwidth, currentTime);
      n := 0;
      assert ifetchBuffer[0..] == ifetchBuffer;
      while n < |ifetchBuffer| && n < bandwidth && ifetchBuffer[n].fetchCompleted && ifetchBuffer[n].readyTime <= currentTime
        invariant n <= |ifetchBuffer| && n <= bandwidth
        invariant n + FetchedSpan(ifetchBuffer[n..], bandwidth - n, currentTime) == span
      {
        assert ifetchBuffer[n..][1..] == ifetchBuffer[n + 1..];
        n := n + 1;
      }
    }

    // DIB hits and L1I responses mark entries of the fetch buffer.
    method MarkFetchBuffer(dibHits: set<nat>, returned: set<nat>)
      modifies this`ifetchBuffer
      ensures ifetchBuffer == MarkFetched(old(ifetchBuffer), dibHits, returned, currentTime)
    {
      var before, marked := ifetchBuffer, [];
      for k := 0 to |before|
        invariant marked == MarkFetched(before[..k], dibHits, returned, currentTime)
      {
        assert before[..k + 1][..k] == before[..k];
        var x := before[k];
        if x.id in returned { x := x.(fetchCompleted := true); }
        if x.id in dibHits { x := x.(fetchCompleted := true, decoded := true, readyTime := currentTime); }
        marked := marked + [x];
      }
      assert before[..|before|] == before;
      ifetchBuffer := marked;
    }

    method InitializeInstruction(fetched: seq<TraceInstr>)
      requires Valid()
      modifies this`ifetchBuffer, this`trace, this`nextId
      ensures View() == InitializeAll(old(View()), fetched, cfg.fetchWidth)
    {
      var n := 0;
      ghost var result := InitializeAll(View(), fetched, cfg.fetchWidth);
      assert fetched[0..] == fetched;
      while n < |fetched| && n < cfg.fetchWidth && |ifetchBuffer| < cfg.ifetchSize
        invariant Valid() && n <= |fetched| && n <= cfg.fetchWidth
        invariant InitializeAll(View(), fetched[n..], cfg.fetchWidth - n) == result
      {
        assert fetched[n..][1..] == fetched[n + 1..];
        EnterInstruction(fetched[n]);
        n := n + 1;
      }
    }

    method EnterInstruction(t: TraceInstr)
      requires Valid()
      modifies this`ifetchBuffer, this`trace, this`nextId
      ensures View() == EnterOne(old(View()), t)
    {
      var ins := Enter(t, nextId + t.gap, warmup, currentTime);
      ifetchBuffer := ifetchBuffer + [ins];
      trace := trace + [OpOf(ins)];
      nextId := ins.id + 1;
    }

    // ---------------------------------------------------------------- one cycle

    method RetirePhase()
      requires Valid() && Inv(View())
      modifies Repr
      ensures Valid() && View() == O3Core.RetireRob(old(View()), cfg.retireWidth)
    {
      CompletedInFile(View());
      RetireRob();
    }

    method CompletePhase()
      requires Valid() && Inv(View())
      modifies Repr
      ensures Valid() && View() == CompleteInflight(old(View()))
    {
      CompletedInFile(View());
      CompleteInflightInstruction();
    }

    method ExecutePhase()
      requires Valid() && Inv(View())
      modifies Repr
      ensures Valid() && View() == ExecuteInstructions(old(View()))
    {
      ScheduledInFile(View());
      ExecuteInstruction();
    }

    method SchedulePhase()
      requires Valid() && Inv(View())
      modifies Repr
      ensures Valid() && View() == ScheduleInstructions(old(View()))
    {
      CompletedInFile(View());
      ScheduleInstruction();
    }

    method L1iReturnPhase(returned: set<nat>)
      requires Valid() && Inv(View())
      modifies Repr
      ensures Valid() && View() == MarkStep(old(View()), {}, returned)
    {
      MarkFetchBuffer({}, returned);
    }

    method L1dReturnPhase(blocks: seq<nat>)
      requires Valid() && Inv(View())
      modifies Repr
      ensures Valid() && View() == LoadsStep(old(View()), blocks)
    {
      ReturnsAreSafe(View(), blocks);
      HandleMemoryReturn(blocks);
    }

    method ExecuteStoresPhase() returns (executed: nat)
      requires Valid() && Inv(View())
      modifies Repr
      ensures Valid() && View() == ExecuteStoresStep(old(View())) && executed == FetchCount(old(View()))
    {
      FetchesAreSafe(View());
      executed := ExecuteReadyStores();
    }

    method CompleteStoresPhase(bandwidth: nat, room: nat)
      requires Valid() && Inv(View())
      modifies Repr
      ensures Valid() && View() == O3Core.CompleteStores(old(View()), bandwidth, room)
    {
      CompleteStores(bandwidth, room);
    }

    method IssuePhase(room: nat)
      requires Valid() && Inv(View())
      modifies Repr
      ensures Valid() && View() == IssueStep(old(View()), room)
    {
      IssueReadyLoads(room);
    }

    method DispatchPhase()
      requires Valid() && Inv(View())
      modifies Repr
      ensures Valid() && View() == Dispatch(old(View()), cfg.dispatchWidth)
    {
      DispatchIsSafe(View());
      DispatchInstruction();
    }

    method DecodePhase()
      requires Valid() && Inv(View())
      modifies Repr
      ensures Valid() && View() == DecodeInstructions(old(View()))
    {
      DecodeInstruction();
    }

    method PromotePhase()
      requires Valid() && Inv(View())
      modifies Repr
      ensures Valid() && View() == O3Core.PromoteToDecode(old(View()))
    {
      PromoteToDecode();
    }

    method DibPhase(dibHits: set<nat>)
      requires Valid() && Inv(View())
      modifies Repr
      ensures Valid() && View() == MarkStep(old(View()), dibHits, {})
    {
      MarkFetchBuffer(dibHits, {});
    }

    method FetchPhase(fetched: seq<TraceInstr>)
      requires Valid() && Inv(View())
      modifies Repr
      ensures Valid() && View() == InitializeInstructions(old(View()), fetched, cfg.fetchWidth)
    {
      InitializeInstruction(fetched);
    }

    method FinishPhase()
      requires Valid() && Inv(View())
      modifies Repr
      ensures Valid() && View() == FinishInstructions(old(View()))
    {
      RetirePhase();
      CompletePhase();
    }

    method StartPhase()
      requires Valid() && Inv(View())
      modifies Repr
      ensures Valid() && View() == StartInstructions(old(View()))
    {
      ExecutePhase();
      SchedulePhase();
    }

    method StoresPhase(storeRoom: nat)
      requires Valid() && Inv(View())
      modifies Repr
      ensures Valid() && View() == OperateStores(old(View()), storeRoom)
    {
      var executed := ExecuteStoresPhase();
      CompleteStoresPhase(cfg.sqWidth - executed, storeRoom);
    }

    method LsqPhase(storeRoom: nat, loadRoom: nat)
      requires Valid() && Inv(View())
      modifies Repr
      ensures Valid() && View() == OperateLsq(old(View()), storeRoom, loadRoom)
    {
      StoresPhase(storeRoom);
      IssuePhase(loadRoom);
    }

    method MemoryPhase(e: Env)
      requires Valid() && Inv(View())
      modifies Repr
      ensures Valid() && View() == OperateMemory(old(View()), e)
    {
      L1iReturnPhase(e.l1iReturns);
      L1dReturnPhase(e.l1dReturns);
      LsqPhase(e.storeRoom, e.loadRoom);
    }

    method MovePhase()
      requires Valid() && Inv(View())
      modifies Repr
      ensures Valid() && View() == MoveInstructions(old(View()))
    {
      DispatchPhase();
      DecodePhase();
    }

    method FrontPhase(e: Env)
      requires Valid() && Inv(View())
      modifies Repr
      ensures Valid() && View() == FetchInstructions(old(View()), e)
    {
      PromotePhase();
      DibPhase(e.dibHits);
      FetchPhase(e.fetched);
    }

    method BackEnd(e: Env)
      requires Valid() && Inv(View())
      modifies Repr
      ensures Valid() && View() == OperateBackEnd(old(View()), e)
    {
      FinishPhase();
      StartPhase();
      MemoryPhase(e);
    }

    // O3_CPU::operate.
    method Operate(e: Env)
      requires Valid() && Inv(View())
      modifies Repr
      ensures Valid() && View() == O3Core.Operate(old(View()), e)
    {
      BackEnd(e);
      MovePhase();
      FrontPhase(e);
    }

    method Tick(dt: nat, endWarmup: bool)
      requires Valid() && Inv(View())
      modifies this`currentTime, this`warmup
      ensures Valid() && View() == TickStep(old(View()), dt, endWarmup)
    {
      currentTime := currentTime + dt;
      if endWarmup { warmup := false; }
    }

    method Cycle(e: Env)
      requires Valid() && Inv(View())
      modifies Repr
      ensures Valid() && View() == O3Core.Cycle(old(View()), e)
    {
      Tick(e.dt, e.endWarmup);
      Operate(e);
    }

    method RunCycles(es: seq<Env>)
      requires Valid() && Inv(View())
      modifies Repr
      ensures Valid() && View() == Run(old(View()), es)
      decreases |es|
    {
      if es == [] { return; }
      RunCycles(es[..|es| - 1]);
      Cycle(es[|es| - 1]);
    }
  }

  // A whole simulation: cycle after cycle on one core object.
  method Simulate(cfg: Config, registers: nat, lqSize: nat, es: seq<Env>) returns (cpu: O3Cpu)
    requires registers <= ARCH_REGS
    ensures cpu.Valid() && cpu.View() == Reached(cfg, registers, lqSize, es)
  {
    cpu := new O3Cpu(cfg, registers, lqSize);
    StartInv(cfg, registers, lqSize);
    cpu.RunCycles(es);
  }
}
