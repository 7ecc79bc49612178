// Where an instruction is in the pipeline, and how far a cycle takes it: the steps
// of O3_CPU::operate run from the last stage to the first, so that no instruction
// passes two stages in one cycle (champsim/src/ooo_cpu.cc:37-53).
module O3Stages {
  import opened Prelude
  import opened Pipeline
  import opened RegisterAllocation
  import opened ReorderBuffer
  import opened LoadStoreQueue
  import opened LoadStoreInvariant
  import opened FrontEnd
  import opened O3Core
  import opened O3Choices

  // The stage of instruction i of the program: 0 not fetched yet, 1 in the fetch
  // buffer, 2 at the decoders or found in the DIB, 3 waiting for dispatch, 4 in the
  // reorder buffer, 5 renamed, 6 executed, 7 completed, 8 retired.
  function Stage(s: Core, i: nat): nat {
    if i < |s.retired| then 8
    else if i < |s.retired| + |s.rob| then EntryStage(s.rob[i - |s.retired|])
    else FrontStage(s.fe, i - |s.retired| - |s.rob|)
  }

  function EntryStage(x: Instr): nat {
    if x.completed then 7 else if x.executed then 6 else if x.scheduled then 5 else 4
  }

  function FrontStage(b: Buffers, i: nat): nat {
    if i < |b.dispatch| then 3
    else if i < |b.dispatch| + |b.dibHit| + |b.decode| then 2
    else if i < |b.dispatch| + |b.dibHit| + |b.decode| + |b.ifetch| then 1
    else 0
  }

  // Some instructions of stage k have moved on to the next, and nothing else.
  ghost predicate MovesFrom(s: Core, t: Core, k: nat) {
    forall i: nat :: Stage(t, i) == Stage(s, i) || (Stage(s, i) == k && Stage(t, i) == k + 1)
  }

  // Some instructions from stage k on have moved on, each by one stage.
  ghost predicate MovedOnce(s: Core, t: Core, k: nat) {
    forall i: nat :: Stage(t, i) == Stage(s, i) || (Stage(s, i) >= k && Stage(t, i) == Stage(s, i) + 1)
  }

  lemma {:induction false} MovesThen(s: Core, t: Core, u: Core, k: nat)
    requires MovedOnce(s, t, k + 1) && MovesFrom(t, u, k)
    ensures MovedOnce(s, u, k)
  {
    hide Stage;
    forall i: nat ensures Stage(u, i) == Stage(s, i) || (Stage(s, i) >= k && Stage(u, i) == Stage(s, i) + 1) {
      assert Stage(t, i) == Stage(s, i) || (Stage(s, i) >= k + 1 && Stage(t, i) == Stage(s, i) + 1);
      assert Stage(u, i) == Stage(t, i) || (Stage(t, i) == k && Stage(u, i) == k + 1);
    }
  }

  // Nothing moves.
  ghost predicate Stays(s: Core, t: Core) {
    forall i: nat :: Stage(t, i) == Stage(s, i)
  }

  lemma {:induction false} StaysThen(s: Core, t: Core, u: Core, k: nat)
    requires (MovedOnce(s, t, k) && Stays(t, u)) || (Stays(s, t) && MovedOnce(t, u, k))
    ensures MovedOnce(s, u, k)
  {
    hide Stage;
    forall i: nat ensures Stage(u, i) == Stage(s, i) || (Stage(s, i) >= k && Stage(u, i) == Stage(s, i) + 1) {
      assert Stays(t, u) ==> Stage(u, i) == Stage(t, i);
      assert Stays(s, t) ==> Stage(t, i) == Stage(s, i);
      assert MovedOnce(s, t, k) ==> Stage(t, i) == Stage(s, i) || (Stage(s, i) >= k && Stage(t, i) == Stage(s, i) + 1);
      assert MovedOnce(t, u, k) ==> Stage(u, i) == Stage(t, i) || (Stage(t, i) >= k && Stage(u, i) == Stage(t, i) + 1);
    }
  }

  // ------------------------------------------------------------------ back end

  // Entries that keep their place move from one flag to the next.
  lemma {:induction false} EntriesMove(s: Core, t: Core, k: nat)
    requires t.retired == s.retired && t.fe == s.fe && |t.rob| == |s.rob|
    requires forall i :: 0 <= i < |s.rob| ==>
               EntryStage(t.rob[i]) == EntryStage(s.rob[i]) || (EntryStage(s.rob[i]) == k && EntryStage(t.rob[i]) == k + 1)
    ensures MovesFrom(s, t, k)
  {
    hide EntryStage;
  }

  lemma {:induction false} CompletedStage(x: Instr)
    ensures EntryStage(x) == 7 <==> x.completed
  {
  }

  lemma {:induction false} Retires(s: State, bw: nat)
    ensures MovesFrom(s, RetireRob(s, bw), 7)
  {
    hide Inv, RetireAll, RetireEntries, RetireSafe, EntryStage;
    var t := RetireRob(s, bw);
    var n := RetiresOldest(s, bw);
    RetireAllSpan(s, bw, n);
    forall i: nat ensures Stage(t, i) == Stage(s, i) || (Stage(s, i) == 7 && Stage(t, i) == 8) {
      if |s.retired| <= i < |s.retired| + n {
        assert EntryStage(s.rob[i - |s.retired|]) == 7 by { CompletedStage(s.rob[i - |s.retired|]); }
      } else if |s.retired| + n <= i < |s.retired| + |s.rob| {
        assert t.rob[i - |t.retired|] == s.rob[i - |s.retired|];
      }
    }
  }

  lemma {:induction false} Completes(s: State)
    ensures MovesFrom(s, CompleteInflight(s), 6)
  {
    hide Inv;
    var t := CompleteInflight(s);
    CompleteFrame(s);
    forall i | 0 <= i < |s.rob|
      ensures EntryStage(t.rob[i]) == EntryStage(s.rob[i]) || (EntryStage(s.rob[i]) == 6 && EntryStage(t.rob[i]) == 7)
    {
      CompletesOldest(s, i);
    }
    EntriesMove(s, t, 6);
  }

  lemma {:induction false} CompleteFrame(s: State)
    ensures var t := Complete(s); t.retired == s.retired && t.fe == s.fe && |t.rob| == |s.rob|
  {
    CompletedInFile(s);
  }

  lemma {:induction false} Executes(s: State)
    ensures MovesFrom(s, ExecuteInstructions(s), 5)
  {
    hide Inv;
    var t := ExecuteInstructions(s);
    forall i | 0 <= i < |s.rob|
      ensures EntryStage(t.rob[i]) == EntryStage(s.rob[i]) || (EntryStage(s.rob[i]) == 5 && EntryStage(t.rob[i]) == 6)
    {
      ExecutesOldest(s, i);
      FlagsInOrder(s, i);
    }
    EntriesMove(s, t, 5);
  }

  lemma {:induction false} FlagsInOrder(s: State, i: nat)
    requires i < |s.rob|
    ensures (s.rob[i].completed ==> s.rob[i].executed) && (s.rob[i].executed ==> s.rob[i].scheduled)
  {
    OpenRob(s);
    OpenRobInv(s.alloc, s.rob, s.retired, Horizon(s));
    assert EntryOk(s.alloc, s.rob, i);
  }

  lemma {:induction false} Schedules(s: State)
    ensures MovesFrom(s, ScheduleInstructions(s), 4)
  {
    hide Inv, ScheduleFrom;
    var t := ScheduleInstructions(s);
    var stop := SchedulesInOrder(s);
    ScheduleFrame(s);
    forall i | 0 <= i < |s.rob|
      ensures EntryStage(t.rob[i]) == EntryStage(s.rob[i]) || (EntryStage(s.rob[i]) == 4 && EntryStage(t.rob[i]) == 5)
    {
      FlagsInOrder(s, i);
    }
    EntriesMove(s, t, 4);
  }

  lemma {:induction false} ScheduleFrame(s: State)
    ensures var t := ScheduleReady(s); t.retired == s.retired && t.fe == s.fe
  {
  }

  // ------------------------------------------------------------ load/store queues

  lemma {:induction false} CountsStay(s: Core, t: Core)
    requires t.retired == s.retired && OnlyCounts(s.rob, t.rob)
    requires t.fe == s.fe.(ifetch := t.fe.ifetch) && |t.fe.ifetch| == |s.fe.ifetch|
    ensures Stays(s, t)
  {
  }

  lemma {:induction false} SameCounts(rob: seq<Instr>)
    ensures OnlyCounts(rob, rob)
  {
  }

  lemma {:induction false} ReturnsStay(s: State, l1iReturns: set<nat>, l1dReturns: seq<nat>)
    ensures Stays(s, HandleMemoryReturn(s, l1iReturns, l1dReturns))
  {
    hide Inv, ReturnBlocks, MarkFetched;
    var t := MarkStep(s, {}, l1iReturns);
    MarkFrame(s, {}, l1iReturns);
    SameCounts(s.rob);
    CountsStay(s, t);
    OpenLsq(t);
    LoadsReturnedLsq(t, l1dReturns);
    CountsStay(t, LoadsStep(t, l1dReturns));
    StaysTwice(s, t, LoadsStep(t, l1dReturns));
  }

  lemma {:induction false} StaysTwice(s: Core, t: Core, u: Core)
    requires Stays(s, t) && Stays(t, u)
    ensures Stays(s, u)
  {
    hide Stage;
    forall i: nat ensures Stage(u, i) == Stage(s, i) { assert Stage(t, i) == Stage(s, i) && Stage(u, i) == Stage(t, i); }
  }

  lemma {:induction false} MarkFrame(s: State, dibHits: set<nat>, returned: set<nat>)
    ensures var t := MarkStep(s, dibHits, returned);
            t == s.(fe := s.fe.(ifetch := MarkFetched(s.fe.ifetch, dibHits, returned, s.now)))
  {
  }

  lemma {:induction false} QueuesStay(s: State, storeRoom: nat, loadRoom: nat)
    ensures Stays(s, OperateLsq(s, storeRoom, loadRoom))
  {
    hide Inv, FetchStores, IssueLoads;
    var t := ExecuteStoresStep(s);
    OpenLsq(s);
    ExecuteStoresLsq(s);
    CountsStay(s, t);
    var u := CompleteStores(t, s.cfg.sqWidth - FetchCount(s), storeRoom);
    LeavingFrame(t, s.cfg.sqWidth - FetchCount(s), storeRoom);
    SameCounts(t.rob);
    CountsStay(t, u);
    CountsStay(u, IssueStep(u, loadRoom));
    StaysTwice(s, t, u);
    StaysTwice(s, u, IssueStep(u, loadRoom));
  }

  lemma {:induction false} LeavingFrame(s: Core, bw: nat, room: nat)
    ensures var t := CompleteStoresAll(s, bw, room); t.rob == s.rob && t.retired == s.retired && t.fe == s.fe
    decreases bw
  {
    if !(s.sq == [] || bw == 0 || room == 0 || !MayComplete(s.sq[0], s.rob, s.now)) { LeavingFrame(CompleteOne(s), bw - 1, room - 1); }
  }

  // ----------------------------------------------------------------- front end

  lemma {:induction false} Dispatches(s: State, bw: nat)
    ensures MovesFrom(s, Dispatch(s, bw), 3)
  {
    hide Inv, DispatchAll, CanDispatch, CountEmpty, AllFresh, InProgramOrder, Sizes;
    var n := DispatchesDue(s, bw);
    OpenFlow(s);
    DispatchFrame(s, bw);
    var t := Dispatch(s, bw);
    forall i: nat ensures Stage(t, i) == Stage(s, i) || (Stage(s, i) == 3 && Stage(t, i) == 4) {
      if |s.retired| <= i < |s.retired| + |s.rob| {
        assert t.rob[i - |s.retired|] == t.rob[..|s.rob|][i - |s.retired|] == s.rob[i - |s.retired|];
      } else if |s.retired| + |s.rob| <= i < |s.retired| + |t.rob| {
        FlagsInOrder(t, i - |s.retired|);
      }
    }
  }

  // The entries that were there stay; the new ones have not been renamed.
  lemma {:induction false} DispatchFrame(s: Core, bw: nat)
    requires AllFresh(s.fe.dispatch)
    ensures var t := DispatchAll(s, bw);
            && t.retired == s.retired && t.fe == s.fe.(dispatch := t.fe.dispatch)
            && |t.rob| >= |s.rob| && t.rob[..|s.rob|] == s.rob
            && forall k :: |s.rob| <= k < |t.rob| ==> !t.rob[k].scheduled
    decreases bw
  {
    hide DispatchOne;
    if !(bw == 0 || !CanDispatch(s)) {
      var u := DispatchOne(s);
      DispatchOneShape(s);
      assert Fresh(s.fe.dispatch[0]) && AllFresh(s.fe.dispatch[1..]);
      DispatchFrame(u, bw - 1);
      var t := DispatchAll(u, bw - 1);
      assert t.rob[..|s.rob|] == t.rob[..|u.rob|][..|s.rob|];
      assert t.rob[|s.rob|] == t.rob[..|u.rob|][|s.rob|];
    }
  }

  lemma {:induction false} Decodes(s: State)
    ensures MovesFrom(s, DecodeInstructions(s), 2)
  {
    hide Inv, Decoded, Took, Stopped;
    var c := CoreDecodesDue(s);
    DecodeFrame(s);
  }

  lemma {:induction false} DecodeFrame(s: State)
    ensures DecodeInstructions(s) == s.(fe := Decoded(s))
  {
  }

  lemma {:induction false} Promotes(s: State)
    ensures MovesFrom(s, PromoteToDecode(s), 1)
  {
    hide Inv, Promoted;
    var n := PromotesFetched(s);
    PromoteFrame(s);
  }

  lemma {:induction false} PromoteFrame(s: State)
    ensures PromoteToDecode(s) == s.(fe := Promoted(s))
  {
  }

  lemma {:induction false} Enters(s: State, fetched: seq<TraceInstr>, bw: nat)
    ensures MovesFrom(s, InitializeInstructions(s, fetched, bw), 0)
  {
    hide Inv, InitializeAll;
    EntersInOrder(s, fetched, bw, 0);
    EnterFrame(s, fetched, bw);
  }

  lemma {:induction false} EnterFrame(s: Core, fetched: seq<TraceInstr>, bw: nat)
    ensures var t := InitializeAll(s, fetched, bw);
            t.retired == s.retired && t.rob == s.rob && t.fe == s.fe.(ifetch := t.fe.ifetch) && |t.fe.ifetch| >= |s.fe.ifetch|
    decreases bw
  {
    if !(fetched == [] || bw == 0 || |s.fe.ifetch| >= s.cfg.ifetchSize) { EnterFrame(EnterOne(s, fetched[0]), fetched[1..], bw - 1); }
  }

  // -------------------------------------------------------------------- cycles

  lemma {:induction false} BackEndOnce(s: State, e: Env)
    ensures MovedOnce(s, OperateBackEnd(s, e), 4)
  {
    hide Inv, MovesFrom, MovedOnce, Stays, Stage;
    var t7 := RetireRob(s, s.cfg.retireWidth);
    Retires(s, s.cfg.retireWidth);
    First(s, t7, 7);
    var t6 := CompleteInflight(t7);
    Completes(t7);
    MovesThen(s, t7, t6, 6);
    var t5 := ExecuteInstructions(t6);
    Executes(t6);
    MovesThen(s, t6, t5, 5);
    var t4 := ScheduleInstructions(t5);
    Schedules(t5);
    MovesThen(s, t5, t4, 4);
    var u := HandleMemoryReturn(t4, e.l1iReturns, e.l1dReturns);
    ReturnsStay(t4, e.l1iReturns, e.l1dReturns);
    StaysThen(s, t4, u, 4);
    QueuesStay(u, e.storeRoom, e.loadRoom);
    StaysThen(s, u, OperateLsq(u, e.storeRoom, e.loadRoom), 4);
  }

  lemma {:induction false} First(s: Core, t: Core, k: nat)
    requires MovesFrom(s, t, k)
    ensures MovedOnce(s, t, k)
  {
    hide Stage;
  }

  lemma {:induction false} FrontEndOnce(s: State, t: State, e: Env)
    requires MovedOnce(s, t, 4)
    ensures MovedOnce(s, OperateFrontEnd(t, e), 0)
  {
    hide Inv, MovesFrom, MovedOnce, Stays, Stage;
    var t3 := Dispatch(t, t.cfg.dispatchWidth);
    Dispatches(t, t.cfg.dispatchWidth);
    MovesThen(s, t, t3, 3);
    var t2 := DecodeInstructions(t3);
    Decodes(t3);
    MovesThen(s, t3, t2, 2);
    var t1 := PromoteToDecode(t2);
    Promotes(t2);
    MovesThen(s, t2, t1, 1);
    var u := MarkStep(t1, e.dibHits, {});
    MarkStays(t1, e.dibHits);
    StaysThen(s, t1, u, 1);
    var t0 := InitializeInstructions(u, e.fetched, u.cfg.fetchWidth);
    Enters(u, e.fetched, u.cfg.fetchWidth);
    MovesThen(s, u, t0, 0);
  }

  lemma {:induction false} MarkStays(s: State, dibHits: set<nat>)
    ensures Stays(s, MarkStep(s, dibHits, {}))
  {
    hide Inv, MarkFetched;
    MarkFrame(s, dibHits, {});
    SameCounts(s.rob);
    CountsStay(s, MarkStep(s, dibHits, {}));
  }

  lemma {:induction false} CycleOnce(s: State, e: Env)
    ensures MovedOnce(s, Cycle(s, e), 0)
  {
    hide Inv, MovedOnce, Stays, Stage;
    var t := TickStep(s, e.dt, e.endWarmup);
    SameCounts(s.rob);
    CountsStay(s, t);
    var u := OperateBackEnd(t, e);
    BackEndOnce(t, e);
    FrontEndOnce(t, u, e);
    StaysThen(s, t, OperateFrontEnd(u, e), 0);
  }

  // -------------------------------------------------------------------- widths

  // What a cycle retires is what had completed in front before it, up to the width.
  lemma {:induction false} CycleRetires(s: State, e: Env) returns (n: nat)
    ensures n <= s.cfg.retireWidth && n <= |s.rob| && (forall k :: 0 <= k < n ==> s.rob[k].completed)
    ensures n == s.cfg.retireWidth || n == |s.rob| || !s.rob[n].completed
    ensures Cycle(s, e).retired == s.retired + s.rob[..n]
  {
    hide Inv, RetireAll, MarkStep, OperateLsq, Dispatch, DecodeInstructions, PromoteToDecode, InitializeInstructions, HandleMemoryReturn,
         Complete, ExecuteReady, ScheduleReady;
    var t := TickStep(s, e.dt, e.endWarmup);
    var r := RetireRob(t, t.cfg.retireWidth);
    n := RetiresOldest(t, t.cfg.retireWidth);
    var u := OperateBackEnd(t, e);
    BackEndRetired(t, e);
    FrontEndRetired(u, e);
  }

  lemma {:induction false} BackEndRetired(s: State, e: Env)
    ensures OperateBackEnd(s, e).retired == RetireRob(s, s.cfg.retireWidth).retired
    ensures OperateBackEnd(s, e).cfg == RetireRob(s, s.cfg.retireWidth).cfg
  {
    hide Inv, RetireAll, CompleteFrom, ExecuteFrom, ScheduleFrom, ReturnBlocks, MarkFetched, FetchStores, IssueLoads;
    var t5 := ExecuteInstructions(CompleteInflight(RetireRob(s, s.cfg.retireWidth)));
    ScheduleFrame(t5);
    var t4 := ScheduleInstructions(t5);
    var u := HandleMemoryReturn(t4, e.l1iReturns, e.l1dReturns);
    MarkFrame(t4, {}, e.l1iReturns);
    var v := ExecuteStoresStep(u);
    LeavingFrame(v, u.cfg.sqWidth - FetchCount(u), e.storeRoom);
    LeavingConfig(v, u.cfg.sqWidth - FetchCount(u), e.storeRoom);
  }

  lemma {:induction false} LeavingConfig(s: Core, bw: nat, room: nat)
    ensures CompleteStoresAll(s, bw, room).cfg == s.cfg
    decreases bw
  {
    if !(s.sq == [] || bw == 0 || room == 0 || !MayComplete(s.sq[0], s.rob, s.now)) { LeavingConfig(CompleteOne(s), bw - 1, room - 1); }
  }

  lemma {:induction false} FrontEndRetired(s: State, e: Env)
    ensures OperateFrontEnd(s, e).retired == s.retired
  {
    hide Inv, DispatchAll, Decoded, Promoted, MarkFetched, InitializeAll;
    OpenFlow(s);
    DispatchFrame(s, s.cfg.dispatchWidth);
    var t3 := Dispatch(s, s.cfg.dispatchWidth);
    DecodeFrame(t3);
    var t2 := DecodeInstructions(t3);
    PromoteFrame(t2);
    var t1 := PromoteToDecode(t2);
    MarkFrame(t1, e.dibHits, {});
    var u := MarkStep(t1, e.dibHits, {});
    EnterFrame(u, e.fetched, u.cfg.fetchWidth);
  }

  // Stores that execute and stores that leave share the width of the queue.
  lemma {:induction false} StoresShareWidth(s: State, room: nat) returns (first: nat, executed: nat, left: nat)
    ensures executed + left <= s.cfg.sqWidth && left <= room && first + executed <= |s.sq|
    ensures forall k :: first <= k < first + executed ==> !s.sq[k].fetched && s.sq[k].ready.Some? && s.sq[k].ready.value <= s.now
    ensures var t := OperateStores(s, room);
            && |t.sq| + left == |s.sq|
            && forall k :: left <= k < |s.sq| ==> (t.sq[k - left].fetched <==> s.sq[k].fetched || first <= k < first + executed)
  {
    hide Inv, CompleteStoresAll, FetchStores, FetchSpan, MayComplete;
    first, executed := FirstUnfetched(s.sq), FetchCount(s);
    SpanIsDue(s.sq, first, s.cfg.sqWidth, s.now);
    var u := ExecuteStoresStep(s);
    forall k | 0 <= k < |s.sq| ensures u.sq[k].fetched <==> s.sq[k].fetched || first <= k < first + executed {
      FetchedAt(LsqOf(s), first, executed, s.now, k);
    }
    left := StoresLeaveInOrder(u, s.cfg.sqWidth - executed, room);
  }

  // ------------------------------------------------------------- main theorems

  // In every cycle of every run each instruction of the program stays in its stage
  // or moves on to the next: it never skips one and never goes back.
  lemma {:induction false} OneStagePerCycle(cfg: Config, registers: nat, lqSize: nat, es: seq<Env>, e: Env, i: nat)
    requires registers <= ARCH_REGS
    ensures var s, t := Reached(cfg, registers, lqSize, es), Reached(cfg, registers, lqSize, es + [e]);
            Stage(s, i) <= Stage(t, i) <= Stage(s, i) + 1
  {
    hide Inv, Stage, Cycle, Start;
    var s := Reached(cfg, registers, lqSize, es);
    assert (es + [e])[..|es|] == es;
    CycleOnce(s, e);
  }

  lemma {:induction false} StageAtMost(cfg: Config, registers: nat, lqSize: nat, es: seq<Env>, i: nat)
    requires registers <= ARCH_REGS
    ensures Stage(Reached(cfg, registers, lqSize, es), i) <= |es|
  {
    hide Inv, Cycle;
    if es == [] {
      StartInv(cfg, registers, lqSize);
    } else {
      var n := |es| - 1;
      StageAtMost(cfg, registers, lqSize, es[..n], i);
      OneStagePerCycle(cfg, registers, lqSize, es[..n], es[n], i);
      assert es[..n] + [es[n]] == es;
    }
  }

  // So it takes eight cycles from the trace to retirement at least.
  lemma {:induction false} EightCyclesAtLeast(cfg: Config, registers: nat, lqSize: nat, es: seq<Env>)
    requires registers <= ARCH_REGS && |es| < 8
    ensures Reached(cfg, registers, lqSize, es).retired == []
  {
    hide Inv, Reached;
    StageAtMost(cfg, registers, lqSize, es, 0);
  }
}
