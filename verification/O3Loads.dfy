// How each load operation of the core ends: its block is answered after the load
// was issued, or an older store to its address executes. In every reachable
// state, the operations that have ended are exactly those.
module O3Loads {
  import opened Prelude
  import opened Pipeline
  import opened RegisterAllocation
  import opened ReorderBuffer
  import opened LoadStoreQueue
  import opened LoadStoreInvariant
  import opened FrontEnd
  import opened O3Core
  import opened O3Forwarding

  // ------------------------------------------------------------ one L1D response

  predicate Issued(slot: Option<Load>) {
    slot.Some? && slot.value.issued
  }

  lemma {:induction false} ReturnBlockAt(rob: seq<Instr>, lq: LoadQueue, n: nat, blockBytes: BlockBytes, block: nat, k: nat)
    requires n <= |lq| && k < |lq|
    ensures var l := ReturnBlock(rob, lq, n, blockBytes, block).1;
            l[k] == if k < n && Issued(lq[k]) && lq[k].value.addr / blockBytes == block then None else lq[k]
  {
    if n > 0 {
      ReturnBlockAt(rob, lq, n - 1, blockBytes, block, k);
      ReturnBlockAt(rob, lq, n - 1, blockBytes, block, n - 1);
    }
  }

  // After responses for some blocks, no slot holds an issued load of one of them;
  // every slot that holds an unissued load, or a load of another block, is unchanged.
  lemma {:induction false} ResponsesClear(rob: seq<Instr>, lq: LoadQueue, blockBytes: BlockBytes, blocks: seq<nat>, k: nat)
    requires k < |lq|
    ensures var l := ReturnBlocks(rob, lq, blockBytes, blocks).1;
            l[k] == if Issued(lq[k]) && lq[k].value.addr / blockBytes in blocks then None else lq[k]
  {
    if blocks != [] {
      var n := |blocks| - 1;
      var (rob1, lq1) := ReturnBlocks(rob, lq, blockBytes, blocks[..n]);
      ResponsesClear(rob, lq, blockBytes, blocks[..n], k);
      ReturnBlockAt(rob1, lq1, |lq1|, blockBytes, blocks[n], k);
      assert blocks == blocks[..n] + [blocks[n]];
    }
  }

  // ------------------------------------------------------- what the others leave

  // Only the ready times of loads differ.
  predicate SameHolders(x: LoadQueue, y: LoadQueue) {
    |y| == |x| && forall k :: 0 <= k < |x| ==>
      (y[k].None? <==> x[k].None?) && (x[k].Some? ==> y[k].value == x[k].value.(ready := y[k].value.ready))
  }

  // Only the ready times of stores differ.
  predicate SameWaiting(x: seq<Store>, y: seq<Store>) {
    |y| == |x| && forall j :: 0 <= j < |x| ==> y[j] == x[j].(ready := y[j].ready)
  }

  lemma {:induction false} ExecuteHolders(a: Alloc, w: Window, i: nat, bw: nat, now: int, at: int)
    requires i <= |w.rob|
    ensures var r := ExecuteFrom(a, w, i, bw, now, at); SameHolders(w.lq, r.lq) && SameWaiting(w.sq, r.sq)
    decreases |w.rob| - i
  {
    hide CanExecute;
    if !(i == |w.rob| || bw == 0) {
      if CanExecute(a, w.rob[i], now) {
        ExecuteHolders(a, ExecuteAt(w, i, at), i + 1, bw - 1, now, at);
      } else {
        ExecuteHolders(a, w, i + 1, bw, now, at);
      }
    }
  }

  lemma {:induction false} ReleaseAt(rob: seq<Instr>, lq: LoadQueue, ws: seq<nat>, k: nat)
    requires k < |lq|
    ensures Release(rob, lq, ws).1[k] == if k in ws then None else lq[k]
  {
    if ws != [] {
      var n := |ws| - 1;
      ReleaseAt(rob, lq, ws[..n], k);
      assert ws == ws[..n] + [ws[n]];
    }
  }

  // Slot k is released by one of the n stores from j on.
  predicate ReleasedBy(sq: seq<Store>, j: nat, n: nat, k: nat)
    requires j + n <= |sq|
  {
    exists m :: j <= m < j + n && k in sq[m].waiters
  }

  lemma {:induction false} FetchStoresAt(s: Lsq, j: nat, n: nat, now: int, k: nat)
    requires j + n <= |s.sq| && k < |s.lq|
    ensures var r := FetchStores(s, j, n, now);
            && r.lq[k] == (if ReleasedBy(s.sq, j, n, k) then None else s.lq[k])
            && (forall m :: 0 <= m < |s.sq| ==>
                  && r.sq[m] == s.sq[m].(fetched := r.sq[m].fetched, ready := r.sq[m].ready)
                  && r.sq[m].fetched == (s.sq[m].fetched || j <= m < j + n))
    decreases n
  {
    if n > 0 {
      var t := FetchOne(s, j, now);
      ReleaseAt(Finish(s.rob, s.sq[j].id), s.lq, s.sq[j].waiters, k);
      FetchStoresAt(t, j + 1, n - 1, now, k);
      ReleasedMore(s.sq, t.sq, j, n, k);
    }
  }

  lemma {:induction false} ReleasedMore(x: seq<Store>, y: seq<Store>, j: nat, n: nat, k: nat)
    requires n > 0 && j + n <= |x| == |y| && forall m :: 0 <= m < |x| ==> y[m].waiters == x[m].waiters
    ensures ReleasedBy(x, j, n, k) <==> k in x[j].waiters || ReleasedBy(y, j + 1, n - 1, k)
  {
    if m :| j <= m < j + n && k in x[m].waiters {
      if m > j { assert k in y[m].waiters; }
    }
    if m :| j + 1 <= m < j + n && k in y[m].waiters { assert k in x[m].waiters; }
  }

  // Loads only become issued.
  predicate MoreIssued(x: LoadQueue, y: LoadQueue) {
    |y| == |x| && forall k :: 0 <= k < |x| ==>
      (y[k].None? <==> x[k].None?) && (x[k].Some? ==> y[k].value == x[k].value.(issued := y[k].value.issued))
  }

  lemma {:induction false} IssueMore(lq: LoadQueue, s: nat, bw: nat, room: nat, now: int)
    requires s <= |lq|
    ensures MoreIssued(lq, IssueLoads(lq, s, bw, room, now))
    decreases |lq| - s
  {
    if !(s == |lq| || bw == 0 || room == 0) {
      if MayIssue(lq[s], now) {
        IssueMore(lq[s := Some(lq[s].value.(issued := true))], s + 1, bw - 1, room - 1, now);
      } else {
        IssueMore(lq, s + 1, bw, room, now);
      }
    }
  }

  // New loads of an instruction take empty slots.
  predicate Entered(x: LoadQueue, y: LoadQueue, id: nat) {
    |y| == |x| && forall k :: 0 <= k < |x| ==>
      if x[k].Some? then y[k] == x[k] else y[k].Some? ==> y[k].value.id == id && !y[k].value.issued
  }

  lemma {:induction false} AddLoadsEnter(lq: LoadQueue, sq: seq<Store>, id: nat, addrs: seq<Addr>)
    ensures Entered(lq, AddLoads(lq, sq, id, addrs).0, id)
  {
    if addrs != [] { AddLoadsEnter(lq, sq, id, addrs[..|addrs| - 1]); }
  }

  // ---------------------------------------------------------------- one cycle

  // The responses that one cycle takes.
  function Taken(s: Core, e: Env): seq<nat> {
    TakeUpTo(e.l1dReturns, s.cfg.l1dBandwidth)
  }

  // The load in slot k was issued before the cycle, which takes a response for its block.
  predicate AnsweredIn(s: Core, e: Env, k: nat)
    requires k < |s.lq|
  {
    Issued(s.lq[k]) && s.lq[k].value.addr / s.cfg.blockBytes in Taken(s, e)
  }

  // Store j of the queue has executed, and may have left, by state r.
  predicate HasExecuted(s: Core, r: Core, j: nat) {
    var gone := |r.written| - |s.written|;
    j < gone || (j - gone < |r.sq| && r.sq[j - gone].fetched)
  }

  // The load in slot k waits for an older store to its address, which has executed by state r.
  predicate ForwardedIn(s: Core, r: Core, k: nat)
    requires k < |s.lq|
  {
    exists j: nat :: j < |s.sq| && WaitsFor(s.lq, k, s.sq[j]) && HasExecuted(s, r, j)
  }

  // A slot over a cycle: emptied if its load was answered or forwarded to, and
  // otherwise still held by the same operation.
  predicate EndsRightly(s: Core, e: Env, r: Core, k: nat)
    requires k < |s.lq| == |r.lq|
  {
    if s.lq[k].None? || AnsweredIn(s, e, k) || ForwardedIn(s, r, k) then r.lq[k].None?
    else r.lq[k].Some? && SameSource(s.lq[k].value, r.lq[k].value)
  }

  // Up to the responses of the L1D only ready times change.
  predicate SameQueues(s: Core, r: Core) {
    SameHolders(s.lq, r.lq) && SameWaiting(s.sq, r.sq) && r.written == s.written && r.cfg == s.cfg
  }

  lemma {:induction false} RetireAllSame(s: Core, bw: nat)
    requires RetireSafe(s.alloc, s.rob)
    ensures var r := RetireAll(s, bw); r.lq == s.lq && r.sq == s.sq && r.written == s.written && r.cfg == s.cfg
    decreases bw
  {
    hide RetireDests;
    if !(s.rob == [] || bw == 0 || !s.rob[0].completed) { RetireAllSame(RetireOne(s), bw - 1); }
  }

  lemma {:induction false} FinishSame(s: State)
    ensures SameQueues(s, FinishInstructions(s))
  {
    hide Inv, RetireAll, CompleteFrom;
    var t := RetireRob(s, s.cfg.retireWidth);
    RetireAllSame(s, s.cfg.retireWidth);
  }

  lemma {:induction false} StartSame(s: State)
    ensures SameQueues(s, StartInstructions(s))
  {
    hide Inv, ExecuteFrom, ScheduleFrom;
    var t := ExecuteInstructions(s);
    ExecuteHolders(s.alloc, Window(s.rob, s.lq, s.sq), 0, s.cfg.execWidth, s.now, s.now + Latency(s, s.cfg.execLatency));
  }

  lemma {:induction false} SameTrans(a: Core, b: Core, c: Core)
    requires SameQueues(a, b) && SameQueues(b, c)
    ensures SameQueues(a, c)
  {
  }

  // Whether a slot waits for a store does not depend on ready times.
  lemma {:induction false} SameWaits(s: Core, t: Core, k: nat, j: nat)
    requires SameQueues(s, t) && k < |s.lq| && j < |s.sq|
    ensures WaitsFor(s.lq, k, s.sq[j]) <==> WaitsFor(t.lq, k, t.sq[j])
    ensures Issued(s.lq[k]) <==> Issued(t.lq[k])
  {
  }

  // A slot listed by an unexecuted store is parked on it.
  lemma {:induction false} ListedWaits(s: State, k: nat, j: nat)
    requires j < |s.sq| && !s.sq[j].fetched && k in s.sq[j].waiters
    ensures k < |s.lq| && WaitsFor(s.lq, k, s.sq[j]) && !Issued(s.lq[k])
  {
    OpenLsq(s);
    OpenLsqInv(LsqOf(s), s.retired, s.written);
    assert WaitersOk(s.lq, s.sq[j]);
  }

  lemma {:induction false} WaitsUnissued(s: State, k: nat, j: nat)
    requires k < |s.lq| && j < |s.sq| && WaitsFor(s.lq, k, s.sq[j])
    ensures !Issued(s.lq[k])
  {
    ListedWaits(s, k, j);
  }

  // Stores leave from the front, and only once they have executed.
  lemma {:induction false} LeaveExecuted(s: State, bw: nat, room: nat)
    ensures var r := CompleteStores(s, bw, room);
            var gone := |r.written| - |s.written|;
            && 0 <= gone <= |s.sq| && r.sq == s.sq[gone..] && r.lq == s.lq && (forall j :: 0 <= j < gone ==> s.sq[j].fetched)
    decreases bw
  {
    hide Inv;
    if !(s.sq == [] || bw == 0 || room == 0 || !MayComplete(s.sq[0], s.rob, s.now)) {
      OpenLsq(s);
      CompleteOneInv(LsqOf(s), s.retired, s.written);
      var t := CompleteStoreStep(s);
      LeaveExecuted(t, bw - 1, room - 1);
      var r := CompleteStores(t, bw - 1, room - 1);
      var gone := |r.written| - |s.written|;
      assert t.sq[gone - 1..] == s.sq[gone..];
      forall j | 0 <= j < gone ensures s.sq[j].fetched {
        if j > 0 { assert t.sq[j - 1] == s.sq[j]; }
      }
    }
  }

  // Executing and handing over stores.
  lemma {:induction false} StoresSlots(s: State, storeRoom: nat, k: nat)
    requires k < |s.lq|
    ensures var r := OperateStores(s, storeRoom);
            |r.lq| == |s.lq| && r.lq[k] == if ForwardedIn(s, r, k) then None else s.lq[k]
    ensures var r := OperateStores(s, storeRoom);
            var gone := |r.written| - |s.written|;
            0 <= gone <= |s.sq| && |r.sq| == |s.sq| - gone
  {
    hide Inv, FetchStores, CompleteStores, WaitsFor, HasExecuted, ReleasedBy, ForwardedIn;
    var j0, n := FirstUnfetched(s.sq), FetchCount(s);
    var t := ExecuteStoresStep(s);
    FetchStoresAt(LsqOf(s), j0, n, s.now, k);
    var r := CompleteStores(t, s.cfg.sqWidth - n, storeRoom);
    LeaveExecuted(t, s.cfg.sqWidth - n, storeRoom);
    FetchesAreSafe(s);
    forall j: nat | j < |s.sq| ensures HasExecuted(s, r, j) <==> t.sq[j].fetched { ExecutedIs(s, t, r, j); }
    ReleasedIsForwarded(s, t, r, k);
  }

  // The stores that execute release exactly the loads that wait for them.
  lemma {:induction false} ReleasedIsForwarded(s: State, t: Core, r: Core, k: nat)
    requires k < |s.lq| && |t.sq| == |s.sq|
    requires forall m :: 0 <= m < |s.sq| ==>
               t.sq[m].fetched == (s.sq[m].fetched || FirstUnfetched(s.sq) <= m < FirstUnfetched(s.sq) + FetchCount(s))
    requires forall j: nat :: j < |s.sq| ==> (HasExecuted(s, r, j) <==> t.sq[j].fetched)
    ensures ReleasedBy(s.sq, FirstUnfetched(s.sq), FetchCount(s), k) <==> ForwardedIn(s, r, k)
  {
    hide Inv, WaitsFor, HasExecuted, FetchCount;
    var j0, n := FirstUnfetched(s.sq), FetchCount(s);
    SpanUnfetched(s, k);
    if ReleasedBy(s.sq, j0, n, k) {
      var m :| j0 <= m < j0 + n && k in s.sq[m].waiters;
      ListedWaits(s, k, m);
      assert WaitsFor(s.lq, k, s.sq[m]) && HasExecuted(s, r, m);
    }
    if ForwardedIn(s, r, k) {
      var j: nat :| j < |s.sq| && WaitsFor(s.lq, k, s.sq[j]) && HasExecuted(s, r, j);
      WaitsListed(s, k, j);
      assert j0 <= j < j0 + n;
    }
  }

  lemma {:induction false} SpanUnfetched(s: State, k: nat)
    ensures forall m :: FirstUnfetched(s.sq) <= m < FirstUnfetched(s.sq) + FetchCount(s) ==> !s.sq[m].fetched
  {
  }

  lemma {:induction false} WaitsListed(s: Core, k: nat, j: nat)
    requires k < |s.lq| && j < |s.sq| && WaitsFor(s.lq, k, s.sq[j])
    ensures !s.sq[j].fetched && k in s.sq[j].waiters
  {
  }

  lemma {:induction false} ExecutedIs(s: Core, t: Core, r: Core, j: nat)
    requires t.written == s.written && |t.sq| == |s.sq| && j < |s.sq|
    requires var gone := |r.written| - |s.written|;
             0 <= gone <= |t.sq| && r.sq == t.sq[gone..] && forall i :: 0 <= i < gone ==> t.sq[i].fetched
    ensures HasExecuted(s, r, j) <==> t.sq[j].fetched
  {
  }

  // Nothing that is parked is answered: what an answer clears waits for no store.
  lemma {:induction false} AnswersLeaveParked(s: State, l1dReturns: seq<nat>, r: Core, k: nat)
    requires k < |s.lq|
    ensures var t := LoadsReturned(s, l1dReturns);
            |t.lq| == |s.lq| && t.sq == s.sq && t.written == s.written && t.cfg == s.cfg
            && (ForwardedIn(t, r, k) <==> ForwardedIn(s, r, k))
  {
    hide Inv, WaitsFor, HasExecuted, ReturnBlocks;
    var t := LoadsReturned(s, l1dReturns);
    forall j: nat | j < |s.sq| ensures WaitsFor(t.lq, k, t.sq[j]) <==> WaitsFor(s.lq, k, s.sq[j]) {
      ResponsesClear(s.rob, s.lq, s.cfg.blockBytes, TakeUpTo(l1dReturns, s.cfg.l1dBandwidth), k);
      AnsweredWaits(s, t, k, j);
    }
    forall j: nat ensures HasExecuted(t, r, j) <==> HasExecuted(s, r, j) { SameExecuted(s, t, r, j); }
  }

  lemma {:induction false} SameExecuted(s: Core, t: Core, r: Core, j: nat)
    requires t.written == s.written
    ensures HasExecuted(t, r, j) <==> HasExecuted(s, r, j)
  {
  }

  lemma {:induction false} AnsweredWaits(s: State, t: Core, k: nat, j: nat)
    requires k < |s.lq| == |t.lq| && j < |s.sq| && t.sq == s.sq && (t.lq[k] == s.lq[k] || (Issued(s.lq[k]) && t.lq[k].None?))
    ensures WaitsFor(t.lq, k, t.sq[j]) <==> WaitsFor(s.lq, k, s.sq[j])
  {
    if WaitsFor(s.lq, k, s.sq[j]) { WaitsUnissued(s, k, j); }
  }

  lemma {:induction false} SameForwarded(s: Core, t: Core, r: Core, k: nat)
    requires SameQueues(s, t) && k < |s.lq|
    ensures ForwardedIn(t, r, k) <==> ForwardedIn(s, r, k)
  {
    hide WaitsFor, HasExecuted, Issued;
    forall j: nat | j < |s.sq| ensures WaitsFor(t.lq, k, t.sq[j]) <==> WaitsFor(s.lq, k, s.sq[j]) { SameWaits(s, t, k, j); }
    forall j: nat ensures HasExecuted(t, r, j) <==> HasExecuted(s, r, j) { SameExecuted(s, t, r, j); }
  }

  // The back end ends the operations that are answered or forwarded to, and no others.
  lemma {:induction false} BackEndSlots(s: State, e: Env, k: nat)
    requires k < |s.lq|
    ensures var r := OperateBackEnd(s, e); |r.lq| == |s.lq| && EndsRightly(s, e, r, k)
    ensures var r := OperateBackEnd(s, e); 0 <= |r.written| - |s.written| && |r.sq| == |s.sq| - (|r.written| - |s.written|)
  {
    hide Inv, FinishInstructions, StartInstructions, OperateStores, ReturnBlocks, IssueLoads, WaitsFor, HasExecuted, ForwardedIn;
    var t := FinishInstructions(s);
    FinishSame(s);
    var u := StartInstructions(t);
    StartSame(t);
    SameTrans(s, t, u);
    var m := MarkStep(u, {}, e.l1iReturns);
    assert SameQueues(u, m);
    SameTrans(s, u, m);
    var v := LoadsStep(m, e.l1dReturns);
    ResponsesClear(m.rob, m.lq, m.cfg.blockBytes, Taken(s, e), k);
    var w := OperateStores(v, e.storeRoom);
    StoresSlots(v, e.storeRoom, k);
    AnswersLeaveParked(m, e.l1dReturns, w, k);
    SameForwarded(s, m, w, k);
    var r := IssueStep(w, e.loadRoom);
    IssueMore(w.lq, 0, w.cfg.lqWidth, e.loadRoom, w.now);
    IssueForwarded(s, w, r, k);
  }

  lemma {:induction false} IssueForwarded(s: Core, w: Core, r: Core, k: nat)
    requires r.sq == w.sq && r.written == w.written && k < |s.lq|
    ensures ForwardedIn(s, r, k) <==> ForwardedIn(s, w, k)
  {
    hide WaitsFor;
    forall j: nat ensures HasExecuted(s, r, j) <==> HasExecuted(s, w, j) {}
  }

  // ----------------------------------------------------------------- counting

  predicate HeldBy(slot: Option<Load>, id: nat, addr: Addr) {
    slot.Some? && slot.value.id == id && slot.value.addr == addr
  }

  function One(b: bool): nat {
    if b then 1 else 0
  }

  // Slots among the first n that hold a load of an instruction from an address.
  function Held(lq: LoadQueue, n: nat, id: nat, addr: Addr): nat
    requires n <= |lq|
  {
    if n == 0 then 0 else Held(lq, n - 1, id, addr) + One(HeldBy(lq[n - 1], id, addr))
  }

  function Answered(s: Core, e: Env, n: nat, id: nat, addr: Addr): nat
    requires n <= |s.lq|
  {
    if n == 0 then 0
    else Answered(s, e, n - 1, id, addr) + One(HeldBy(s.lq[n - 1], id, addr) && AnsweredIn(s, e, n - 1))
  }

  function Forwarded(s: Core, r: Core, n: nat, id: nat, addr: Addr): nat
    requires n <= |s.lq|
  {
    if n == 0 then 0
    else Forwarded(s, r, n - 1, id, addr) + One(HeldBy(s.lq[n - 1], id, addr) && ForwardedIn(s, r, n - 1))
  }

  lemma {:induction false} HeldUpdate(lq: LoadQueue, n: nat, k: nat, slot: Option<Load>, id: nat, addr: Addr)
    requires k < n <= |lq|
    ensures Held(lq[k := slot], n, id, addr) + One(HeldBy(lq[k], id, addr)) == Held(lq, n, id, addr) + One(HeldBy(slot, id, addr))
  {
    if k < n - 1 { HeldUpdate(lq, n - 1, k, slot, id, addr); } else { HeldSame(lq, lq[k := slot], n - 1, id, addr); }
  }

  lemma {:induction false} HeldSame(x: LoadQueue, y: LoadQueue, n: nat, id: nat, addr: Addr)
    requires n <= |x| == |y| && forall k :: 0 <= k < n ==> (HeldBy(x[k], id, addr) <==> HeldBy(y[k], id, addr))
    ensures Held(x, n, id, addr) == Held(y, n, id, addr)
  {
    if n > 0 { HeldSame(x, y, n - 1, id, addr); }
  }

  lemma {:induction false} HeldNone(lq: LoadQueue, n: nat, id: nat, addr: Addr)
    requires n <= |lq| && forall k :: 0 <= k < n ==> !HeldBy(lq[k], id, addr)
    ensures Held(lq, n, id, addr) == 0
  {
    if n > 0 { HeldNone(lq, n - 1, id, addr); }
  }

  // Over a cycle each operation is still held, was answered, or was forwarded to.
  lemma {:induction false} HeldSplits(s: State, e: Env, r: Core, n: nat, id: nat, addr: Addr)
    requires n <= |s.lq| == |r.lq|
    requires forall k: nat :: k < n ==>
               (HeldBy(r.lq[k], id, addr) <==> HeldBy(s.lq[k], id, addr) && !AnsweredIn(s, e, k) && !ForwardedIn(s, r, k))
    ensures Held(s.lq, n, id, addr) == Held(r.lq, n, id, addr) + Answered(s, e, n, id, addr) + Forwarded(s, r, n, id, addr)
  {
    hide Inv, AnsweredIn, ForwardedIn, HeldBy;
    if n > 0 {
      HeldSplits(s, e, r, n - 1, id, addr);
      AnsweredOrForwarded(s, e, r, n - 1);
    }
  }

  lemma {:induction false} AnsweredOrForwarded(s: State, e: Env, r: Core, k: nat)
    requires k < |s.lq|
    ensures !(AnsweredIn(s, e, k) && ForwardedIn(s, r, k))
  {
    hide Inv, HasExecuted;
    if j: nat :| j < |s.sq| && WaitsFor(s.lq, k, s.sq[j]) && HasExecuted(s, r, j) { WaitsUnissued(s, k, j); }
  }

  // ----------------------------------------------------------------- dispatch

  // A youngest older store to the address has executed already.
  predicate ServedAtOnce(sq: seq<Store>, id: nat, addr: Addr) {
    exists j: nat :: j < |sq| && sq[j].fetched && YoungestOlder(Load(addr, id, None, false, None), sq, j)
  }

  function CountOf(addrs: seq<Addr>, addr: Addr): nat {
    multiset(addrs)[addr]
  }

  lemma {:induction false} AddLoadHeld(lq: LoadQueue, sq: seq<Store>, id: nat, a: Addr, addr: Addr)
    requires FirstEmpty(lq) < |lq| && FetchedFirst(sq) && forall j :: 0 <= j < |sq| ==> sq[j].id < id
    ensures var (l, q, d) := AddLoad(lq, sq, id, a);
            Held(l, |l|, id, addr) == Held(lq, |lq|, id, addr) + One(a == addr && !ServedAtOnce(sq, id, addr))
  {
    hide ServedAtOnce, FetchedFirst;
    var s := FirstEmpty(lq);
    var load := Load(a, id, None, false, None);
    HeldUpdate(lq, |lq|, s, Some(load), id, addr);
    if sq == [] {
      NotServed(sq, id, a);
    } else {
      var m := ForwardFrom(sq, a);
      HeldUpdate(lq, |lq|, s, Some(load.(producer := Some(sq[m].id))), id, addr);
      ServedIff(sq, id, a);
    }
  }

  lemma {:induction false} NotServed(sq: seq<Store>, id: nat, addr: Addr)
    requires forall j :: 0 <= j < |sq| ==> sq[j].addr != addr
    ensures !ServedAtOnce(sq, id, addr)
  {
  }

  // The scan decides it: stores execute from the front, so if any youngest store to
  // the address has executed, the one the scan finds has.
  lemma {:induction false} ServedIff(sq: seq<Store>, id: nat, addr: Addr)
    requires sq != [] && FetchedFirst(sq) && forall j :: 0 <= j < |sq| ==> sq[j].id < id
    ensures var m := ForwardFrom(sq, addr);
            ServedAtOnce(sq, id, addr) <==> sq[m].addr == addr && sq[m].fetched
  {
    var m := ForwardFrom(sq, addr);
    var load := Load(addr, id, None, false, None);
    ForwardsYoungestStore(sq, addr);
    if sq[m].addr == addr && sq[m].fetched {
      assert YoungestOlder(load, sq, m);
    }
    if j: nat :| j < |sq| && sq[j].fetched && YoungestOlder(load, sq, j) {
      assert OlderStore(load, sq[m]) && sq[m].id == sq[j].id;
      ScanIsFirst(sq, addr);
      if j < m { assert false; }
    }
  }

  // Of several youngest stores to the address the scan finds the first.
  lemma {:induction false} ScanIsFirst(sq: seq<Store>, addr: Addr)
    requires sq != []
    ensures var m := ForwardFrom(sq, addr);
            sq[m].addr == addr ==> forall k :: 0 <= k < m && sq[k].addr == addr ==> sq[k].id < sq[m].id
  {
    ScanFromIsFirst(sq, addr, 0, 1);
  }

  lemma {:induction false} ScanFromIsFirst(sq: seq<Store>, addr: Addr, best: nat, j: nat)
    requires best < j <= |sq|
    requires if sq[best].addr == addr
             then (forall k :: 0 <= k < j && sq[k].addr == addr ==> sq[k].id <= sq[best].id)
                  && (forall k :: 0 <= k < best && sq[k].addr == addr ==> sq[k].id < sq[best].id)
             else forall k :: 0 <= k < j ==> sq[k].addr != addr
    ensures var m := MaxScan(sq, addr, best, j);
            sq[m].addr == addr ==> forall k :: 0 <= k < m && sq[k].addr == addr ==> sq[k].id < sq[m].id
    decreases |sq| - j
  {
    if j < |sq| {
      ScanFromIsFirst(sq, addr, if LoadStoreQueue.Below(sq[best], sq[j], addr) then j else best, j + 1);
    }
  }

  lemma {:induction false} SameServed(x: seq<Store>, y: seq<Store>, id: nat, addr: Addr)
    requires SameButWaiters(x, y)
    ensures ServedAtOnce(x, id, addr) <==> ServedAtOnce(y, id, addr)
  {
    var load := Load(addr, id, None, false, None);
    if j: nat :| j < |x| && x[j].fetched && YoungestOlder(load, x, j) { SameYoungest(x, y, load, j); }
    if j: nat :| j < |y| && y[j].fetched && YoungestOlder(load, y, j) { SameYoungest(y, x, load, j); }
  }

  lemma {:induction false} SameYoungest(x: seq<Store>, y: seq<Store>, load: Load, j: nat)
    requires SameButWaiters(x, y) && j < |x| && x[j].fetched && YoungestOlder(load, x, j)
    ensures y[j].fetched && YoungestOlder(load, y, j)
  {
    forall k | 0 <= k < |y| && OlderStore(load, y[k]) ensures y[k].id <= y[j].id { assert OlderStore(load, x[k]); }
  }

  lemma {:induction false} AddLoadsHeld(lq: LoadQueue, sq: seq<Store>, id: nat, addrs: seq<Addr>, addr: Addr)
    requires |addrs| <= CountEmpty(lq) && FetchedFirst(sq) && forall j :: 0 <= j < |sq| ==> sq[j].id < id
    ensures var l := AddLoads(lq, sq, id, addrs).0;
            Held(l, |l|, id, addr) ==
            Held(lq, |lq|, id, addr) + if ServedAtOnce(sq, id, addr) then 0 else CountOf(addrs, addr)
  {
    hide ServedAtOnce, AddLoad;
    if addrs != [] {
      var n := |addrs| - 1;
      var (l, q, d) := AddLoads(lq, sq, id, addrs[..n]);
      AddLoadsHeld(lq, sq, id, addrs[..n], addr);
      AddLoadsRoom(lq, sq, id, addrs[..n]);
      EmptyExists(l);
      AddLoadHeld(l, q, id, addrs[n], addr);
      SameServed(sq, q, id, addr);
      assert addrs == addrs[..n] + [addrs[n]];
    }
  }

  lemma {:induction false} AddLoadsRoom(lq: LoadQueue, sq: seq<Store>, id: nat, addrs: seq<Addr>)
    ensures var (l, q, d) := AddLoads(lq, sq, id, addrs); CountEmpty(l) + |addrs| >= CountEmpty(lq) && SameButWaiters(sq, q)
  {
    hide AddLoad, CountEmpty;
    if addrs != [] {
      var n := |addrs| - 1;
      var (l, q, d) := AddLoads(lq, sq, id, addrs[..n]);
      AddLoadsRoom(lq, sq, id, addrs[..n]);
      AddLoadShape(l, q, id, addrs[n]);
    }
  }

  // What dispatch leaves: held slots, queued stores and entries as they were, and
  // behind them those of younger instructions.
  predicate Extends(s: Core, r: Core) {
    && |r.lq| == |s.lq| && |r.rob| >= |s.rob| && |r.sq| >= |s.sq| && r.written == s.written && r.retired == s.retired
    && r.cfg == s.cfg
    && (forall i :: 0 <= i < |s.rob| ==> r.rob[i] == s.rob[i])
    && (forall j :: 0 <= j < |s.sq| ==> KeyOf(r.sq[j]) == KeyOf(s.sq[j]) && r.sq[j].fetched == s.sq[j].fetched)
    && (forall i, j :: 0 <= i < |s.rob| && |s.sq| <= j < |r.sq| ==> s.rob[i].id < r.sq[j].id)
    && (forall k :: 0 <= k < |s.lq| && s.lq[k].Some? ==> r.lq[k] == s.lq[k])
    && (forall i, k :: 0 <= i < |s.rob| && 0 <= k < |s.lq| && s.lq[k].None? && r.lq[k].Some? ==> s.rob[i].id < r.lq[k].value.id)
  }

  lemma {:induction false} ExtendsTrans(a: Core, b: Core, c: Core)
    requires Extends(a, b) && Extends(b, c)
    ensures Extends(a, c)
  {
    forall i, j | 0 <= i < |a.rob| && |a.sq| <= j < |c.sq| ensures a.rob[i].id < c.sq[j].id {
      assert b.rob[i] == a.rob[i];
      if j < |b.sq| { assert KeyOf(c.sq[j]) == KeyOf(b.sq[j]); }
    }
    forall i, k | 0 <= i < |a.rob| && 0 <= k < |a.lq| && a.lq[k].None? && c.lq[k].Some? ensures a.rob[i].id < c.lq[k].value.id {
      assert b.rob[i] == a.rob[i];
    }
  }

  lemma {:induction false} DispatchOneExtends(s: State)
    requires CanDispatch(s)
    ensures Extends(s, DispatchOne(s))
  {
    hide Inv, AddLoads;
    var e := s.fe.dispatch[0];
    DispatchOneShape(s);
    AddLoadsEnter(s.lq, s.sq, e.id, e.srcMem);
    AddLoadsShape(s.lq, s.sq, e.id, e.srcMem);
    RobOlder(s);
  }

  lemma {:induction false} RobOlder(s: State)
    requires s.fe.dispatch != []
    ensures forall i :: 0 <= i < |s.rob| ==> s.rob[i].id < s.fe.dispatch[0].id
  {
    OpenFlow(s);
    forall i | 0 <= i < |s.rob| ensures s.rob[i].id < s.fe.dispatch[0].id {
      DispatchIsYoungest(s, |s.retired| + i);
      assert (s.retired + s.rob)[|s.retired| + i] == s.rob[i];
    }
  }

  lemma {:induction false} DispatchExtends(s: State, bw: nat)
    ensures Extends(s, Dispatch(s, bw))
    decreases bw
  {
    hide Inv, Extends, DispatchOne;
    if !(bw == 0 || !CanDispatch(s)) {
      DispatchOneExtends(s);
      var t := DispatchStep(s);
      DispatchExtends(t, bw - 1);
      ExtendsTrans(s, t, Dispatch(t, bw - 1));
    } else {
      ExtendsSame(s);
    }
  }

  lemma {:induction false} ExtendsSame(s: Core)
    ensures Extends(s, s)
  {
  }

  // Loads and stores of younger instructions change neither what an older one
  // holds nor what serves it.
  lemma {:induction false} OlderUndisturbed(s: Core, r: Core, i: nat, addr: Addr)
    requires Extends(s, r) && i < |s.rob|
    ensures Held(r.lq, |r.lq|, s.rob[i].id, addr) == Held(s.lq, |s.lq|, s.rob[i].id, addr)
    ensures ServedAtOnce(r.sq, s.rob[i].id, addr) <==> ServedAtOnce(s.sq, s.rob[i].id, addr)
  {
    var id := s.rob[i].id;
    forall k | 0 <= k < |s.lq| ensures HeldBy(r.lq[k], id, addr) <==> HeldBy(s.lq[k], id, addr) {
      if s.lq[k].None? && r.lq[k].Some? { assert s.rob[i].id < r.lq[k].value.id; }
    }
    HeldSame(r.lq, s.lq, |s.lq|, id, addr);
    YoungerServes(s.sq, r.sq, id, addr);
  }

  lemma {:induction false} YoungerServes(x: seq<Store>, y: seq<Store>, id: nat, addr: Addr)
    requires |y| >= |x| && forall j :: 0 <= j < |x| ==> KeyOf(y[j]) == KeyOf(x[j]) && y[j].fetched == x[j].fetched
    requires forall j :: |x| <= j < |y| ==> id < y[j].id
    ensures ServedAtOnce(y, id, addr) <==> ServedAtOnce(x, id, addr)
  {
    var load := Load(addr, id, None, false, None);
    forall j | 0 <= j < |x| ensures OlderStore(load, y[j]) <==> OlderStore(load, x[j]) { assert KeyOf(y[j]) == KeyOf(x[j]); }
    forall j: nat | j < |x| ensures YoungestOlder(load, y, j) <==> YoungestOlder(load, x, j) {
      if YoungestOlder(load, y, j) {
        forall k | 0 <= k < |x| && OlderStore(load, x[k]) ensures x[k].id <= x[j].id {
          assert OlderStore(load, y[k]) && KeyOf(y[k]) == KeyOf(x[k]) && KeyOf(y[j]) == KeyOf(x[j]);
        }
      }
      if YoungestOlder(load, x, j) {
        forall k | 0 <= k < |y| && OlderStore(load, y[k]) ensures y[k].id <= y[j].id {
          assert k < |x| && OlderStore(load, x[k]) && KeyOf(y[k]) == KeyOf(x[k]) && KeyOf(y[j]) == KeyOf(x[j]);
        }
      }
    }
    if j: nat :| j < |x| && x[j].fetched && YoungestOlder(load, x, j) { assert y[j].fetched && YoungestOlder(load, y, j); }
    if j: nat :| j < |y| && y[j].fetched && YoungestOlder(load, y, j) { assert x[j].fetched && YoungestOlder(load, x, j); }
  }

  // A dispatched instruction holds a slot for each load that no store served at once.
  lemma {:induction false} DispatchOneHolds(s: State, addr: Addr)
    requires CanDispatch(s)
    ensures var r, n := DispatchOne(s), |s.rob|;
            |r.rob| == n + 1 && r.rob[n].srcMem == s.fe.dispatch[0].srcMem && r.rob[n].id == s.fe.dispatch[0].id
            && Held(r.lq, |r.lq|, r.rob[n].id, addr) == if ServedAtOnce(r.sq, r.rob[n].id, addr) then 0 else CountOf(r.rob[n].srcMem, addr)
  {
    hide Inv, AddLoads, NewStores, ServedAtOnce, Held;
    var e := s.fe.dispatch[0];
    DispatchOneShape(s);
    NothingHeld(s, addr);
    StoresOlder(s);
    AddLoadsHeld(s.lq, s.sq, e.id, e.srcMem, addr);
    AddLoadsShape(s.lq, s.sq, e.id, e.srcMem);
    var q := AddLoads(s.lq, s.sq, e.id, e.srcMem).1;
    SameServed(s.sq, q, e.id, addr);
    OwnStores(q, e.id, e.dstMem, addr);
  }

  lemma {:induction false} OwnStores(q: seq<Store>, id: nat, addrs: seq<Addr>, addr: Addr)
    ensures ServedAtOnce(q + NewStores(id, addrs), id, addr) <==> ServedAtOnce(q, id, addr)
  {
    var load := Load(addr, id, None, false, None);
    var z := q + NewStores(id, addrs);
    forall j: nat | j < |q| ensures YoungestOlder(load, z, j) <==> YoungestOlder(load, q, j) {
      if YoungestOlder(load, z, j) {
        forall k | 0 <= k < |q| && OlderStore(load, q[k]) ensures q[k].id <= q[j].id { assert OlderStore(load, z[k]); }
      }
    }
    if j: nat :| j < |q| && q[j].fetched && YoungestOlder(load, q, j) { assert z[j].fetched && YoungestOlder(load, z, j); }
  }

  lemma {:induction false} StoresOlder(s: State)
    requires s.fe.dispatch != []
    ensures FetchedFirst(s.sq) && forall j :: 0 <= j < |s.sq| ==> s.sq[j].id < s.fe.dispatch[0].id
  {
    FetchesAreSafe(s);
    DispatchIsSafe(s);
  }

  lemma {:induction false} NothingHeld(s: State, addr: Addr)
    requires s.fe.dispatch != []
    ensures Held(s.lq, |s.lq|, s.fe.dispatch[0].id, addr) == 0
  {
    RobOlder(s);
    forall k | 0 <= k < |s.lq| ensures !HeldBy(s.lq[k], s.fe.dispatch[0].id, addr) {
      if s.lq[k].Some? { LoadHasOwner(s, k); }
    }
    HeldNone(s.lq, |s.lq|, s.fe.dispatch[0].id, addr);
  }

  lemma {:induction false} DispatchHolds(s: State, bw: nat, i: nat, addr: Addr)
    requires |s.rob| <= i < |Dispatch(s, bw).rob|
    ensures var r := Dispatch(s, bw);
            var ins := r.rob[i];
            Held(r.lq, |r.lq|, ins.id, addr) == if ServedAtOnce(r.sq, ins.id, addr) then 0 else CountOf(ins.srcMem, addr)
    decreases bw
  {
    hide Inv, Held, ServedAtOnce, DispatchOne;
    if !(bw == 0 || !CanDispatch(s)) {
      var t := DispatchStep(s);
      DispatchOneHolds(s, addr);
      DispatchExtends(t, bw - 1);
      if i < |t.rob| {
        OlderUndisturbed(t, Dispatch(t, bw - 1), i, addr);
      } else {
        DispatchHolds(t, bw - 1, i, addr);
      }
    }
  }

  // ------------------------------------------------- the program moves forward

  // Everything that has been dispatched, oldest first.
  function Dispatched(s: Core): seq<Op> {
    Program(s.retired + s.rob)
  }

  lemma {:induction false} SameDispatched(s: Core, r: Core)
    requires r.retired == s.retired && SameOps(s.rob, r.rob)
    ensures Dispatched(r) == Dispatched(s)
  {
    ProgramConcat(s.retired, s.rob);
    ProgramConcat(r.retired, r.rob);
    assert Program(r.rob) == Program(s.rob);
  }

  lemma {:induction false} RetireDispatched(s: Core, bw: nat)
    requires RetireSafe(s.alloc, s.rob)
    ensures Dispatched(RetireAll(s, bw)) == Dispatched(s)
    decreases bw
  {
    hide RetireDests, Program;
    if !(s.rob == [] || bw == 0 || !s.rob[0].completed) {
      assert s.retired + s.rob == (s.retired + [s.rob[0]]) + s.rob[1..];
      RetireDispatched(RetireOne(s), bw - 1);
    }
  }

  lemma {:induction false} CountsSameOps(x: seq<Instr>, y: seq<Instr>)
    requires OnlyCounts(x, y)
    ensures SameOps(x, y)
  {
  }

  lemma {:induction false} LeaveRob(s: Core, bw: nat, room: nat)
    ensures var r := CompleteStoresAll(s, bw, room); r.rob == s.rob && r.retired == s.retired
    decreases bw
  {
    hide MayComplete;
    if !(s.sq == [] || bw == 0 || room == 0 || !MayComplete(s.sq[0], s.rob, s.now)) { LeaveRob(CompleteOne(s), bw - 1, room - 1); }
  }

  lemma {:induction false} FirstStepsDispatched(s: State)
    ensures Dispatched(StartInstructions(FinishInstructions(s))) == Dispatched(s)
  {
    hide Inv, Dispatched, RetireAll, CompleteFrom, ExecuteFrom, ScheduleFrom, SameOps;
    var a := RetireRob(s, s.cfg.retireWidth);
    RetireDispatched(s, s.cfg.retireWidth);
    var b := CompleteInflight(a);
    CompleteLsq(a);
    SameDispatched(a, b);
    var c := ExecuteInstructions(b);
    ExecuteLsq(b);
    SameDispatched(b, c);
    ScheduleLsq(c);
    SameDispatched(c, ScheduleInstructions(c));
  }

  lemma {:induction false} BackEndDispatched(s: State, e: Env)
    ensures Dispatched(OperateBackEnd(s, e)) == Dispatched(s)
  {
    hide Inv, Dispatched, SameOps, StartInstructions, FinishInstructions, ReturnBlocks, FetchStores, CompleteStoresAll, IssueLoads;
    FirstStepsDispatched(s);
    var m := MarkStep(StartInstructions(FinishInstructions(s)), {}, e.l1iReturns);
    assert Dispatched(m) == Dispatched(s) by { SameRob(StartInstructions(FinishInstructions(s)), m); }
    var v := LoadsStep(m, e.l1dReturns);
    OpenLsq(m);
    LoadsReturnedLsq(m, e.l1dReturns);
    CountsSameOps(m.rob, v.rob);
    SameDispatched(m, v);
    var w := ExecuteStoresStep(v);
    OpenLsq(v);
    ExecuteStoresLsq(v);
    CountsSameOps(v.rob, w.rob);
    SameDispatched(v, w);
    LeaveRob(w, v.cfg.sqWidth - FetchCount(v), e.storeRoom);
    SameRob(w, OperateStores(v, e.storeRoom));
    SameRob(OperateStores(v, e.storeRoom), OperateBackEnd(s, e));
  }

  lemma {:induction false} SameRob(s: Core, r: Core)
    requires r.retired == s.retired && r.rob == s.rob
    ensures Dispatched(r) == Dispatched(s)
  {
  }

  // After the back end only dispatch touches the reorder buffer and the queues.
  lemma {:induction false} FrontEndSame(s: State, e: Env)
    ensures var d, r := Dispatch(s, s.cfg.dispatchWidth), OperateFrontEnd(s, e);
            r.lq == d.lq && r.sq == d.sq && r.rob == d.rob && r.retired == d.retired && r.written == d.written && r.cfg == d.cfg
  {
    hide Inv, Dispatch, InitializeAll;
    var t := MarkStep(PromoteToDecode(MoveInstructions(s)), e.dibHits, {});
    InitializeSame(t, e.fetched, t.cfg.fetchWidth);
  }

  lemma {:induction false} InitializeSame(s: Core, fetched: seq<TraceInstr>, bw: nat)
    ensures var r := InitializeAll(s, fetched, bw);
            r.lq == s.lq && r.sq == s.sq && r.rob == s.rob && r.retired == s.retired && r.written == s.written && r.cfg == s.cfg
    decreases bw
  {
    if !(fetched == [] || bw == 0 || |s.fe.ifetch| >= s.cfg.ifetchSize) {
      InitializeSame(EnterOne(s, fetched[0]), fetched[1..], bw - 1);
    }
  }

  lemma {:induction false} ExtendsDispatched(s: Core, r: Core)
    requires Extends(s, r)
    ensures Dispatched(s) <= Dispatched(r)
  {
    var x, y := s.retired + s.rob, r.retired + r.rob;
    forall k | 0 <= k < |x| ensures Dispatched(r)[k] == Dispatched(s)[k] { assert y[k] == x[k]; }
  }

  // ------------------------------------------------------------------- cycles

  // The state between the two halves of a cycle.
  ghost function HalfWay(s: State, e: Env): State {
    OperateBackEnd(TickStep(s, e.dt, e.endWarmup), e)
  }

  lemma {:induction false} CycleExtends(s: State, e: Env)
    ensures Extends(HalfWay(s, e), Cycle(s, e)) && Dispatched(HalfWay(s, e)) == Dispatched(s)
    ensures Dispatched(s) <= Dispatched(Cycle(s, e))
  {
    hide Inv, Extends, Dispatched, OperateBackEnd, OperateFrontEnd, Dispatch;
    var t := TickStep(s, e.dt, e.endWarmup);
    SameRob(s, t);
    BackEndDispatched(t, e);
    var b := OperateBackEnd(t, e);
    DispatchExtends(b, b.cfg.dispatchWidth);
    FrontEndSame(b, e);
    ExtendsAlso(b, Dispatch(b, b.cfg.dispatchWidth), OperateFrontEnd(b, e));
    ExtendsDispatched(b, OperateFrontEnd(b, e));
  }

  lemma {:induction false} ExtendsAlso(s: Core, d: Core, r: Core)
    requires Extends(s, d)
    requires r.lq == d.lq && r.sq == d.sq && r.rob == d.rob && r.retired == d.retired && r.written == d.written && r.cfg == d.cfg
    ensures Extends(s, r)
  {
  }

  lemma {:induction false} HalfSlots(s: State, e: Env, k: nat)
    requires k < |s.lq|
    ensures var b := HalfWay(s, e);
            && |b.lq| == |s.lq| && EndsRightly(s, e, b, k) && b.cfg == s.cfg
            && 0 <= |b.written| - |s.written| && |b.sq| == |s.sq| - (|b.written| - |s.written|)
  {
    hide Inv, OperateBackEnd, WaitsFor, HasExecuted, ForwardedIn;
    var t := TickStep(s, e.dt, e.endWarmup);
    assert SameQueues(s, t);
    BackEndSlots(t, e, k);
    SameForwarded(s, t, OperateBackEnd(t, e), k);
    BackEndConfig(t, e);
  }

  lemma {:induction false} BackEndConfig(s: State, e: Env)
    ensures OperateBackEnd(s, e).cfg == s.cfg
  {
    hide Inv, FinishInstructions, StartInstructions, ReturnBlocks, FetchStores, CompleteStoresAll, IssueLoads;
    FinishSame(s);
    StartSame(FinishInstructions(s));
    var v := HandleMemoryReturn(StartInstructions(FinishInstructions(s)), e.l1iReturns, e.l1dReturns);
    LeaveConfig(ExecuteStoresStep(v), v.cfg.sqWidth - FetchCount(v), e.storeRoom);
  }

  lemma {:induction false} LeaveConfig(s: Core, bw: nat, room: nat)
    ensures CompleteStoresAll(s, bw, room).cfg == s.cfg
    decreases bw
  {
    hide MayComplete;
    if !(s.sq == [] || bw == 0 || room == 0 || !MayComplete(s.sq[0], s.rob, s.now)) { LeaveConfig(CompleteOne(s), bw - 1, room - 1); }
  }

  lemma {:induction false} ForwardedStays(s: Core, b: Core, r: Core, k: nat)
    requires Extends(b, r) && k < |s.lq|
    requires 0 <= |b.written| - |s.written| && |b.sq| == |s.sq| - (|b.written| - |s.written|)
    ensures ForwardedIn(s, r, k) <==> ForwardedIn(s, b, k)
  {
    hide WaitsFor;
    forall j: nat | j < |s.sq| ensures HasExecuted(s, r, j) <==> HasExecuted(s, b, j) {}
  }

  // Over a whole cycle, for an instruction in the reorder buffer at both ends.
  lemma {:induction false} CycleHeld(s: State, e: Env, i: nat, addr: Addr)
    requires i < |HalfWay(s, e).rob|
    ensures var r, id := Cycle(s, e), HalfWay(s, e).rob[i].id;
            && |r.lq| == |s.lq|
            && Held(s.lq, |s.lq|, id, addr) ==
               Held(r.lq, |r.lq|, id, addr) + Answered(s, e, |s.lq|, id, addr) + Forwarded(s, r, |s.lq|, id, addr)
  {
    hide Inv, HalfWay, Cycle, Extends, AnsweredIn, ForwardedIn, Held;
    var b, r := HalfWay(s, e), Cycle(s, e);
    var id := b.rob[i].id;
    CycleExtends(s, e);
    OlderUndisturbed(b, r, i, addr);
    SlotsCount(s, e);
    forall k: nat | k < |s.lq|
      ensures HeldBy(b.lq[k], id, addr) <==> HeldBy(s.lq[k], id, addr) && !AnsweredIn(s, e, k) && !ForwardedIn(s, b, k)
    {
      HalfSlots(s, e, k);
    }
    HeldSplits(s, e, b, |s.lq|, id, addr);
    forall k: nat | k < |s.lq| ensures ForwardedIn(s, r, k) <==> ForwardedIn(s, b, k) {
      HalfSlots(s, e, k);
      ForwardedStays(s, b, r, k);
    }
    ForwardedSame(s, b, r, |s.lq|, id, addr);
    ExtendsSize(b, r);
  }

  lemma {:induction false} ExtendsSize(s: Core, r: Core)
    requires Extends(s, r)
    ensures |r.lq| == |s.lq|
  {
  }

  lemma {:induction false} SlotsCount(s: State, e: Env)
    ensures |HalfWay(s, e).lq| == |s.lq|
  {
    hide Inv, FinishInstructions, StartInstructions, ReturnBlocks, FetchStores, CompleteStoresAll, IssueLoads;
    var t := TickStep(s, e.dt, e.endWarmup);
    FinishSame(t);
    StartSame(FinishInstructions(t));
    var v := HandleMemoryReturn(StartInstructions(FinishInstructions(t)), e.l1iReturns, e.l1dReturns);
    LeaveLq(ExecuteStoresStep(v), v.cfg.sqWidth - FetchCount(v), e.storeRoom);
  }

  lemma {:induction false} LeaveLq(s: Core, bw: nat, room: nat)
    ensures CompleteStoresAll(s, bw, room).lq == s.lq
    decreases bw
  {
    hide MayComplete;
    if !(s.sq == [] || bw == 0 || room == 0 || !MayComplete(s.sq[0], s.rob, s.now)) { LeaveLq(CompleteOne(s), bw - 1, room - 1); }
  }

  lemma {:induction false} ForwardedSame(s: Core, b: Core, r: Core, n: nat, id: nat, addr: Addr)
    requires n <= |s.lq| && forall k: nat :: k < |s.lq| ==> (ForwardedIn(s, r, k) <==> ForwardedIn(s, b, k))
    ensures Forwarded(s, r, n, id, addr) == Forwarded(s, b, n, id, addr)
  {
    hide ForwardedIn, HeldBy;
    if n > 0 { ForwardedSame(s, b, r, n - 1, id, addr); }
  }

  // -------------------------------------------------------------------- runs

  predicate InRob(s: Core, id: nat) {
    exists i: nat :: i < |s.rob| && s.rob[i].id == id
  }

  // Loads of an instruction that are served as it is dispatched, between s and r.
  function AtOnce(s: Core, r: Core, id: nat, addrs: seq<Addr>, addr: Addr): nat {
    if !InRob(s, id) && InRob(r, id) && ServedAtOnce(r.sq, id, addr) then CountOf(addrs, addr) else 0
  }

  // Over a run: operations of an instruction, from one address, that were issued
  // and then answered ...
  ghost function AnsweredOps(s: State, es: seq<Env>, id: nat, addr: Addr): nat {
    if es == [] then 0
    else
      var n := |es| - 1;
      var t := Run(s, es[..n]);
      AnsweredOps(s, es[..n], id, addr) + Answered(t, es[n], |t.lq|, id, addr)
  }

  // ... and those to which an older store to the address was forwarded.
  ghost function ForwardedOps(s: State, es: seq<Env>, id: nat, addrs: seq<Addr>, addr: Addr): nat {
    if es == [] then 0
    else
      var n := |es| - 1;
      var t := Run(s, es[..n]);
      var r := Run(s, es);
      ForwardedOps(s, es[..n], id, addrs, addr) + Forwarded(t, r, |t.lq|, id, addr) + AtOnce(t, r, id, addrs, addr)
  }

  // No instruction with this id has been dispatched.
  predicate NotYet(s: Core, id: nat) {
    forall k :: 0 <= k < |Dispatched(s)| ==> Dispatched(s)[k].id != id
  }

  lemma {:induction false} NotYetHeld(s: State, id: nat, addr: Addr)
    requires NotYet(s, id)
    ensures !InRob(s, id) && forall k :: 0 <= k < |s.lq| ==> !HeldBy(s.lq[k], id, addr)
  {
    hide Inv;
    assert forall i :: 0 <= i < |s.rob| ==> Dispatched(s)[|s.retired| + i].id == s.rob[i].id;
    forall k | 0 <= k < |s.lq| && s.lq[k].Some? ensures s.lq[k].value.id != id { LoadHasOwner(s, k); }
  }

  lemma {:induction false} NoneEnds(s: State, e: Env, r: Core, n: nat, id: nat, addr: Addr)
    requires n <= |s.lq| && forall k :: 0 <= k < |s.lq| ==> !HeldBy(s.lq[k], id, addr)
    ensures Answered(s, e, n, id, addr) == 0 && Forwarded(s, r, n, id, addr) == 0
  {
    hide Inv, HeldBy, AnsweredIn, ForwardedIn;
    if n > 0 { NoneEnds(s, e, r, n - 1, id, addr); }
  }

  lemma {:induction false} NothingYet(s: State, es: seq<Env>, id: nat, addrs: seq<Addr>, addr: Addr)
    requires NotYet(Run(s, es), id)
    ensures AnsweredOps(s, es, id, addr) == 0 && ForwardedOps(s, es, id, addrs, addr) == 0
  {
    hide Inv, Cycle, NotYet, Dispatched, InRob, Answered, Forwarded, HeldBy, ServedAtOnce;
    if es != [] {
      var n := |es| - 1;
      var t, r := Run(s, es[..n]), Run(s, es);
      CycleExtends(t, es[n]);
      EarlierToo(t, r, id);
      NothingYet(s, es[..n], id, addrs, addr);
      NotYetHeld(t, id, addr);
      NotYetHeld(r, id, addr);
      NoneEnds(t, es[n], r, |t.lq|, id, addr);
    }
  }

  lemma {:induction false} EarlierToo(s: Core, r: Core, id: nat)
    requires Dispatched(s) <= Dispatched(r) && NotYet(r, id)
    ensures NotYet(s, id)
  {
    forall k | 0 <= k < |Dispatched(s)| ensures Dispatched(s)[k].id != id { assert Dispatched(s)[k] == Dispatched(r)[k]; }
  }

  // An entry after a cycle was there before it, or has just been dispatched.
  lemma {:induction false} EntryBefore(s: State, b: State, r: State, i: nat)
    requires Dispatched(b) == Dispatched(s) && Extends(b, r) && i < |r.rob| && |s.retired| <= |b.retired|
    ensures i < |b.rob| ==> exists i0: nat :: i0 < |s.rob| && OpOf(s.rob[i0]) == OpOf(r.rob[i]) && b.rob[i].id == r.rob[i].id
    ensures i >= |b.rob| ==> NotYet(s, r.rob[i].id)
  {
    hide Inv;
    var g := |r.retired| + i;
    if i < |b.rob| {
      assert Dispatched(b)[g] == OpOf(b.rob[i]) && b.rob[i] == r.rob[i];
      assert Dispatched(s)[g] == OpOf(s.rob[g - |s.retired|]);
    } else {
      RunInOrder(r);
      forall k | 0 <= k < |Dispatched(s)| ensures Dispatched(s)[k].id != r.rob[i].id {
        assert Dispatched(b)[k] == OpOf((b.retired + b.rob)[k]);
        assert (r.retired + r.rob)[k] == (b.retired + b.rob)[k] && (r.retired + r.rob)[g] == r.rob[i];
      }
    }
  }

  lemma {:induction false} RunInOrder(s: State)
    ensures SortedIds(s.retired + s.rob)
  {
    OpenLsq(s);
    OpenLsqInv(LsqOf(s), s.retired, s.written);
  }

  lemma {:induction false} RetiredGrows(s: State, e: Env)
    ensures |s.retired| <= |HalfWay(s, e).retired|
  {
    hide Inv, OperateBackEnd;
    var t := TickStep(s, e.dt, e.endWarmup);
    assert Grows(HistoryOf(s), HistoryOf(t));
    assert Grows(HistoryOf(t), HistoryOf(OperateBackEnd(t, e)));
  }

  // Each load of an entry is still held, was answered, or was forwarded to.
  lemma {:induction false} RunLoads(s: State, es: seq<Env>, i: nat, addr: Addr)
    requires s.rob == [] && i < |Run(s, es).rob|
    ensures var r := Run(s, es);
            var ins := r.rob[i];
            CountOf(ins.srcMem, addr) ==
            Held(r.lq, |r.lq|, ins.id, addr) + AnsweredOps(s, es, ins.id, addr) + ForwardedOps(s, es, ins.id, ins.srcMem, addr)
  {
    hide Inv, Cycle, HalfWay, Extends, NotYet, Dispatched, Held, Answered, Forwarded, ServedAtOnce, CountOf;
    var n := |es| - 1;
    var t, e := Run(s, es[..n]), es[n];
    var b, r := HalfWay(t, e), Run(s, es);
    var ins := r.rob[i];
    CycleExtends(t, e);
    RetiredGrows(t, e);
    EntryBefore(t, b, r, i);
    if i < |b.rob| {
      var i0: nat :| i0 < |t.rob| && OpOf(t.rob[i0]) == OpOf(ins) && b.rob[i].id == ins.id;
      RunLoads(s, es[..n], i0, addr);
      CycleHeld(t, e, i, addr);
    } else {
      NotYetHeld(t, ins.id, addr);
      NothingYet(s, es[..n], ins.id, ins.srcMem, addr);
      NoneEnds(t, e, r, |t.lq|, ins.id, addr);
      CycleHolds(t, e, i, addr);
    }
  }

  lemma {:induction false} CycleHolds(s: State, e: Env, i: nat, addr: Addr)
    requires |HalfWay(s, e).rob| <= i < |Cycle(s, e).rob|
    ensures var r := Cycle(s, e);
            Held(r.lq, |r.lq|, r.rob[i].id, addr) ==
            if ServedAtOnce(r.sq, r.rob[i].id, addr) then 0 else CountOf(r.rob[i].srcMem, addr)
  {
    hide Inv, Held, ServedAtOnce, Dispatch, OperateBackEnd, OperateFrontEnd;
    var b := HalfWay(s, e);
    FrontEndSame(b, e);
    DispatchHolds(b, b.cfg.dispatchWidth, i, addr);
  }

  // ------------------------------------------------------------- main theorems

  // How loads end, in every reachable state: of the loads of an instruction from
  // an address, as many as the program has, some still hold a slot; the others had
  // been issued when a response for their block was taken, or had an older store
  // to their address execute. None is lost, none ends twice, and none ends otherwise.
  lemma {:induction false} LoadsEndRightly(cfg: Config, registers: nat, lqSize: nat, es: seq<Env>, i: nat, addr: Addr)
    requires registers <= ARCH_REGS && i < |Reached(cfg, registers, lqSize, es).rob|
    ensures var s := Reached(cfg, registers, lqSize, es);
            var ins := s.rob[i];
            var start := Reached(cfg, registers, lqSize, []);
            CountOf(ins.srcMem, addr) ==
            Held(s.lq, |s.lq|, ins.id, addr) + AnsweredOps(start, es, ins.id, addr) + ForwardedOps(start, es, ins.id, ins.srcMem, addr)
  {
    StartInv(cfg, registers, lqSize);
    RunLoads(Start(cfg, registers, lqSize), es, i, addr);
  }
}
