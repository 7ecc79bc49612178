// The load queue, the store queue and the memory-operation counters of the
// reorder buffer (champsim/src/ooo_cpu.cc).
module LoadStoreQueue {
  import opened Prelude
  import opened Pipeline

  type LoadQueue = seq<Option<Load>>

  datatype Lsq = Lsq(rob: seq<Instr>, lq: LoadQueue, sq: seq<Store>)

  // ---------------------------------------------------------------- operations

  // What std::partition_point finds for "instr_id < id" on a sorted buffer.
  function FirstNotBefore(rob: seq<Instr>, id: nat): (i: nat)
    ensures i <= |rob|
    ensures forall j :: 0 <= j < i ==> rob[j].id < id
    ensures i < |rob| ==> rob[i].id >= id
  {
    FirstNotBeforeFrom(rob, id, 0)
  }

  function FirstNotBeforeFrom(rob: seq<Instr>, id: nat, k: nat): (i: nat)
    requires k <= |rob|
    ensures k <= i <= |rob|
    ensures forall j :: k <= j < i ==> rob[j].id < id
    ensures i < |rob| ==> rob[i].id >= id
    decreases |rob| - k
  {
    if k == |rob| || rob[k].id >= id then k else FirstNotBeforeFrom(rob, id, k + 1)
  }

  function CountMemOp(ins: Instr): Instr {
    ins.(memDone := ins.memDone + 1)
  }

  // The two assertions of LSQ_ENTRY::finish and the one before the counter is returned.
  predicate FinishSafe(rob: seq<Instr>, id: nat) {
    var i := FirstNotBefore(rob, id);
    i < |rob| && rob[i].id == id && rob[i].memDone < rob[i].NumMemOps()
  }

  function Finish(rob: seq<Instr>, id: nat): (r: seq<Instr>)
    ensures |r| == |rob|
  {
    var i := FirstNotBefore(rob, id);
    if i < |rob| then rob[i := CountMemOp(rob[i])] else rob
  }

  function FirstEmpty(lq: LoadQueue): (s: nat)
    ensures s <= |lq|
    ensures s < |lq| ==> lq[s].None?
    ensures forall t :: 0 <= t < s ==> lq[t].Some?
  {
    if lq == [] || lq[0].None? then 0 else 1 + FirstEmpty(lq[1..])
  }

  // The comparator handed to max_element; it is not a strict weak order.
  predicate Below(x: Store, y: Store, addr: Addr) {
    x.addr != addr || (y.addr == addr && x.id < y.id)
  }

  // std::max_element from position j on, with `best` the largest so far.
  function MaxScan(sq: seq<Store>, addr: Addr, best: nat, j: nat): (m: nat)
    requires best < j <= |sq|
    ensures m < |sq|
    decreases |sq| - j
  {
    if j == |sq| then best
    else MaxScan(sq, addr, if Below(sq[best], sq[j], addr) then j else best, j + 1)
  }

  function ForwardFrom(sq: seq<Store>, addr: Addr): (m: nat)
    requires sq != []
    ensures m < |sq|
  {
    MaxScan(sq, addr, 0, 1)
  }

  // One load of a dispatched instruction; the last result counts an operation
  // that finished at once because the store had already executed.
  function AddLoad(lq: LoadQueue, sq: seq<Store>, id: nat, addr: Addr): (r: (LoadQueue, seq<Store>, nat))
    ensures |r.0| == |lq| && |r.1| == |sq|
  {
    var s := FirstEmpty(lq);
    if s == |lq| then (lq, sq, 0)
    else
      var load := Load(addr, id, None, false, None);
      if sq == [] then (lq[s := Some(load)], sq, 0)
      else
        var m := ForwardFrom(sq, addr);
        if sq[m].addr != addr then (lq[s := Some(load)], sq, 0)
        else if sq[m].fetched then (lq, sq, 1)
        else (lq[s := Some(load.(producer := Some(sq[m].id)))], sq[m := sq[m].(waiters := sq[m].waiters + [s])], 0)
  }

  function AddLoads(lq: LoadQueue, sq: seq<Store>, id: nat, addrs: seq<Addr>): (r: (LoadQueue, seq<Store>, nat))
    ensures |r.0| == |lq| && |r.1| == |sq|
  {
    if addrs == [] then (lq, sq, 0)
    else
      var n := |addrs| - 1;
      var (lq1, sq1, done) := AddLoads(lq, sq, id, addrs[..n]);
      var (lq2, sq2, now) := AddLoad(lq1, sq1, id, addrs[n]);
      (lq2, sq2, done + now)
  }

  function NewStores(id: nat, addrs: seq<Addr>): (r: seq<Store>)
    ensures |r| == |addrs|
    ensures forall k :: 0 <= k < |addrs| ==> r[k] == Store(addrs[k], id, None, false, [])
  {
    if addrs == [] then [] else NewStores(id, addrs[..|addrs| - 1]) + [Store(addrs[|addrs| - 1], id, None, false, [])]
  }

  // do_memory_scheduling for an instruction that has just entered the reorder buffer.
  function DispatchMemory(s: Lsq, ins: Instr): Lsq {
    var (lq, sq, done) := AddLoads(s.lq, s.sq, ins.id, ins.srcMem);
    Lsq(s.rob + [ins.(memDone := ins.memDone + done)], lq, sq + NewStores(ins.id, ins.dstMem))
  }

  // Releasing the loads parked behind a store.
  function Release(rob: seq<Instr>, lq: LoadQueue, waiters: seq<nat>): (r: (seq<Instr>, LoadQueue))
    ensures |r.0| == |rob| && |r.1| == |lq|
  {
    if waiters == [] then (rob, lq)
    else
      var n := |waiters| - 1;
      var (rob1, lq1) := Release(rob, lq, waiters[..n]);
      var w := waiters[n];
      if w < |lq1| && lq1[w].Some? then (Finish(rob1, lq1[w].value.id), lq1[w := None]) else (rob1, lq1)
  }

  function FinishStore(rob: seq<Instr>, lq: LoadQueue, st: Store): (r: (seq<Instr>, LoadQueue))
    ensures |r.0| == |rob| && |r.1| == |lq|
  {
    Release(Finish(rob, st.id), lq, st.waiters)
  }

  // Executing the n stores from position j on.
  function FetchStores(s: Lsq, j: nat, n: nat, now: int): (r: Lsq)
    requires j + n <= |s.sq|
    ensures |r.rob| == |s.rob| && |r.lq| == |s.lq| && |r.sq| == |s.sq|
    decreases n
  {
    if n == 0 then s else FetchStores(FetchOne(s, j, now), j + 1, n - 1, now)
  }

  function FetchOne(s: Lsq, j: nat, now: int): (r: Lsq)
    requires j < |s.sq|
    ensures |r.rob| == |s.rob| && |r.lq| == |s.lq| && |r.sq| == |s.sq|
  {
    var (rob1, lq1) := FinishStore(s.rob, s.lq, s.sq[j]);
    Lsq(rob1, lq1, s.sq[j := s.sq[j].(fetched := true, ready := Some(now))])
  }

  function FirstUnfetched(sq: seq<Store>): (j: nat)
    ensures j <= |sq|
    ensures forall k :: 0 <= k < j ==> sq[k].fetched
    ensures j < |sq| ==> !sq[j].fetched
  {
    if sq == [] || !sq[0].fetched then 0 else 1 + FirstUnfetched(sq[1..])
  }

  // Length of the run of stores from j on that may execute now, at most bw.
  function FetchSpan(sq: seq<Store>, j: nat, bw: nat, now: int): (n: nat)
    requires j <= |sq|
    ensures n <= bw && j + n <= |sq|
    ensures forall k :: j <= k < j + n ==> !sq[k].fetched
    decreases |sq| - j
  {
    if j == |sq| || bw == 0 || sq[j].fetched || !Due(sq[j].ready, now) then 0
    else 1 + FetchSpan(sq, j + 1, bw - 1, now)
  }

  predicate MayComplete(st: Store, rob: seq<Instr>, now: int) {
    (rob == [] || st.id < rob[0].id) && Due(st.ready, now)
  }

  predicate MayIssue(slot: Option<Load>, now: int) {
    slot.Some? && slot.value.producer.None? && !slot.value.issued
    && slot.value.ready.Some? && slot.value.ready.value < now
  }

  // Issuing loads from slot s on.
  function IssueLoads(lq: LoadQueue, s: nat, bw: nat, room: nat, now: int): (r: LoadQueue)
    requires s <= |lq|
    ensures |r| == |lq|
    decreases |lq| - s
  {
    if s == |lq| || bw == 0 || room == 0 then lq
    else if MayIssue(lq[s], now) then
      IssueLoads(lq[s := Some(lq[s].value.(issued := true))], s + 1, bw - 1, room - 1, now)
    else IssueLoads(lq, s + 1, bw, room, now)
  }

  type BlockBytes = n: nat | 0 < n witness 64

  predicate Answers(slot: Option<Load>, blockBytes: BlockBytes, block: nat) {
    slot.Some? && slot.value.issued && slot.value.addr / blockBytes == block
  }

  // One response of the L1D, over the first n slots.
  function ReturnBlock(rob: seq<Instr>, lq: LoadQueue, n: nat, blockBytes: BlockBytes, block: nat): (r: (seq<Instr>, LoadQueue))
    requires n <= |lq|
    ensures |r.0| == |rob| && |r.1| == |lq|
  {
    if n == 0 then (rob, lq)
    else
      var (rob1, lq1) := ReturnBlock(rob, lq, n - 1, blockBytes, block);
      if Answers(lq1[n - 1], blockBytes, block) then (Finish(rob1, lq1[n - 1].value.id), lq1[n - 1 := None]) else (rob1, lq1)
  }

  function ReturnBlocks(rob: seq<Instr>, lq: LoadQueue, blockBytes: BlockBytes, blocks: seq<nat>): (r: (seq<Instr>, LoadQueue))
    ensures |r.0| == |rob| && |r.1| == |lq|
  {
    if blocks == [] then (rob, lq)
    else
      var n := |blocks| - 1;
      var (rob1, lq1) := ReturnBlocks(rob, lq, blockBytes, blocks[..n]);
      ReturnBlock(rob1, lq1, |lq1|, blockBytes, blocks[n])
  }

  // Execution of an instruction makes its queue entries ready.
  function WakeLoads(lq: LoadQueue, id: nat, at: int): (r: LoadQueue)
    ensures |r| == |lq|
    ensures forall s :: 0 <= s < |lq| ==>
              r[s] == if lq[s].Some? && lq[s].value.id == id then Some(lq[s].value.(ready := Some(at))) else lq[s]
  {
    if lq == [] then []
    else WakeLoads(lq[..|lq| - 1], id, at)
         + [if lq[|lq| - 1].Some? && lq[|lq| - 1].value.id == id
            then Some(lq[|lq| - 1].value.(ready := Some(at))) else lq[|lq| - 1]]
  }

  function WakeStores(sq: seq<Store>, id: nat, at: int): (r: seq<Store>)
    ensures |r| == |sq|
    ensures forall j :: 0 <= j < |sq| ==> r[j] == if sq[j].id == id then sq[j].(ready := Some(at)) else sq[j]
  {
    if sq == [] then []
    else WakeStores(sq[..|sq| - 1], id, at)
         + [if sq[|sq| - 1].id == id then sq[|sq| - 1].(ready := Some(at)) else sq[|sq| - 1]]
  }

  // ---------------------------------------------------------------- forwarding

  lemma {:induction false} MaxScanBest(sq: seq<Store>, addr: Addr, best: nat, j: nat)
    requires best < j <= |sq|
    requires (exists k :: 0 <= k < j && sq[k].addr == addr) ==>
               sq[best].addr == addr && forall k :: 0 <= k < j && sq[k].addr == addr ==> sq[k].id <= sq[best].id
    ensures var m := MaxScan(sq, addr, best, j);
            (exists k :: 0 <= k < |sq| && sq[k].addr == addr) ==>
              sq[m].addr == addr && forall k :: 0 <= k < |sq| && sq[k].addr == addr ==> sq[k].id <= sq[m].id
    decreases |sq| - j
  {
    if j < |sq| {
      var next := if Below(sq[best], sq[j], addr) then j else best;
      MaxScanBest(sq, addr, next, j + 1);
    }
  }

  // If any queued store is to exactly this address, the scan finds one, and a
  // youngest one; otherwise what it finds has another address.
  lemma {:induction false} ForwardsYoungestStore(sq: seq<Store>, addr: Addr)
    requires sq != []
    ensures var m := ForwardFrom(sq, addr);
            && (sq[m].addr == addr <==> exists k :: 0 <= k < |sq| && sq[k].addr == addr)
            && (sq[m].addr == addr ==> forall k :: 0 <= k < |sq| && sq[k].addr == addr ==> sq[k].id <= sq[m].id)
  {
    MaxScanBest(sq, addr, 0, 1);
  }
}
