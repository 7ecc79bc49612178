// What the load and store queues keep true: every memory operation of every
// instruction in the reorder buffer is accounted for, parked loads belong to
// exactly one waiting store, and stores reach the L1D in program order.
module LoadStoreInvariant {
  import opened Prelude
  import opened Pipeline
  import opened LoadStoreQueue

  // ---------------------------------------------------------------- accounting

  function Times(id: nat, k: nat): multiset<nat> {
    multiset{}[id := k]
  }

  function Remaining(ins: Instr): nat {
    if ins.memDone <= ins.NumMemOps() then ins.NumMemOps() - ins.memDone else 0
  }

  // Memory operations that the reorder buffer still waits for, by instruction id.
  function Owed(rob: seq<Instr>): multiset<nat> {
    if rob == [] then multiset{} else Times(rob[0].id, Remaining(rob[0])) + Owed(rob[1..])
  }

  // Ids of the occupied load-queue slots.
  function LqIds(lq: LoadQueue): multiset<nat> {
    if lq == [] then multiset{}
    else (if lq[0].Some? then multiset{lq[0].value.id} else multiset{}) + LqIds(lq[1..])
  }

  // Ids of the stores that have not executed.
  function UnfetchedIds(sq: seq<Store>): multiset<nat> {
    if sq == [] then multiset{}
    else UnfetchedId(sq[0]) + UnfetchedIds(sq[1..])
  }

  // Load-queue slots that some unexecuted store will release.
  function Waits(sq: seq<Store>): multiset<nat> {
    if sq == [] then multiset{}
    else Waiting(sq[0]) + Waits(sq[1..])
  }

  lemma {:induction false} OwedUpdate(rob: seq<Instr>, i: nat, ins: Instr)
    requires i < |rob| && ins.id == rob[i].id
    ensures Times(rob[i].id, Remaining(rob[i])) <= Owed(rob)
    ensures Owed(rob[i := ins]) == Owed(rob) - Times(rob[i].id, Remaining(rob[i])) + Times(ins.id, Remaining(ins))
  {
    if i > 0 {
      OwedUpdate(rob[1..], i - 1, ins);
      assert rob[i := ins][1..] == rob[1..][i - 1 := ins];
    }
  }

  lemma {:induction false} OwedMember(rob: seq<Instr>, id: nat)
    requires id in Owed(rob)
    ensures exists i :: 0 <= i < |rob| && rob[i].id == id && Remaining(rob[i]) > 0
  {
    if rob[0].id == id && Remaining(rob[0]) > 0 {
    } else {
      OwedMember(rob[1..], id);
      var i :| 0 <= i < |rob[1..]| && rob[1..][i].id == id && Remaining(rob[1..][i]) > 0;
      assert rob[i + 1].id == id;
    }
  }

  lemma {:induction false} FindsItself(rob: seq<Instr>, m: nat)
    requires SortedIds(rob) && m < |rob|
    ensures FirstNotBefore(rob, rob[m].id) == m
  {
    assert forall i :: 0 <= i < m ==> rob[i].id < rob[m].id;
  }

  lemma {:induction false} CountDown(rob: seq<Instr>, i: nat)
    requires i < |rob| && Remaining(rob[i]) > 0
    ensures Owed(rob[i := CountMemOp(rob[i])]) == Owed(rob) - multiset{rob[i].id}
  {
    var ins := CountMemOp(rob[i]);
    OwedUpdate(rob, i, ins);
    assert Remaining(ins) == Remaining(rob[i]) - 1;
    assert Times(ins.id, Remaining(rob[i])) == Times(ins.id, Remaining(ins)) + multiset{ins.id};
  }

  // An operation that is owed finds its own instruction by binary search, and
  // every assertion of LSQ_ENTRY::finish holds.
  lemma {:induction false} FinishOwed(rob: seq<Instr>, id: nat)
    requires SortedIds(rob) && id in Owed(rob)
    ensures FinishSafe(rob, id) && Owed(Finish(rob, id)) == Owed(rob) - multiset{id}
  {
    OwedMember(rob, id);
    var m :| 0 <= m < |rob| && rob[m].id == id && Remaining(rob[m]) > 0;
    FindsItself(rob, m);
    CountDown(rob, m);
  }

  lemma {:induction false} LqClear(lq: LoadQueue, s: nat)
    requires s < |lq| && lq[s].Some?
    ensures lq[s].value.id in LqIds(lq) && LqIds(lq[s := None]) == LqIds(lq) - multiset{lq[s].value.id}
  {
    if s > 0 {
      LqClear(lq[1..], s - 1);
      assert lq[s := None][1..] == lq[1..][s - 1 := None];
    }
  }

  lemma {:induction false} LqFill(lq: LoadQueue, s: nat, load: Load)
    requires s < |lq| && lq[s].None?
    ensures LqIds(lq[s := Some(load)]) == LqIds(lq) + multiset{load.id}
  {
    if s > 0 {
      LqFill(lq[1..], s - 1, load);
      assert lq[s := Some(load)][1..] == lq[1..][s - 1 := Some(load)];
    } else {
      assert lq[0 := Some(load)][1..] == lq[1..];
    }
  }

  predicate SameLoadIds(x: LoadQueue, y: LoadQueue) {
    |x| == |y| && forall s :: 0 <= s < |x| ==> (x[s].None? <==> y[s].None?) && (x[s].Some? ==> x[s].value.id == y[s].value.id)
  }

  lemma {:induction false} LqIdsSame(x: LoadQueue, y: LoadQueue)
    requires SameLoadIds(x, y)
    ensures LqIds(x) == LqIds(y)
  {
    if x != [] { LqIdsSame(x[1..], y[1..]); }
  }

  function UnfetchedId(st: Store): multiset<nat> {
    if st.fetched then multiset{} else multiset{st.id}
  }

  function Waiting(st: Store): multiset<nat> {
    if st.fetched then multiset{} else multiset(st.waiters)
  }

  lemma {:induction false} UnfetchedConcat(x: seq<Store>, y: seq<Store>)
    ensures UnfetchedIds(x + y) == UnfetchedIds(x) + UnfetchedIds(y)
  {
    if x == [] {
      assert x + y == y;
    } else {
      var z := x + y;
      assert z[1..] == x[1..] + y;
      UnfetchedConcat(x[1..], y);
      var a, b, c := UnfetchedId(x[0]), UnfetchedIds(x[1..]), UnfetchedIds(y);
      assert UnfetchedIds(z[1..]) == b + c;
      assert UnfetchedIds(z) == a + (b + c);
    }
  }

  lemma {:induction false} WaitsConcat(x: seq<Store>, y: seq<Store>)
    ensures Waits(x + y) == Waits(x) + Waits(y)
  {
    if x == [] {
      assert x + y == y;
    } else {
      var z := x + y;
      assert z[1..] == x[1..] + y;
      WaitsConcat(x[1..], y);
      var a, b, c := Waiting(x[0]), Waits(x[1..]), Waits(y);
      assert Waits(z[1..]) == b + c;
      assert Waits(z) == a + (b + c);
    }
  }

  lemma {:induction false} SwapIn(a: multiset<nat>, b: multiset<nat>, x: multiset<nat>, y: multiset<nat>)
    requires x <= b
    ensures x <= a + b && a + (b - x + y) == a + b - x + y
  {
  }

  lemma {:induction false} UnfetchedUpdate(sq: seq<Store>, j: nat, st: Store)
    requires j < |sq| && st.id == sq[j].id
    ensures UnfetchedId(sq[j]) <= UnfetchedIds(sq)
    ensures UnfetchedIds(sq[j := st]) == UnfetchedIds(sq) - UnfetchedId(sq[j]) + UnfetchedId(st)
  {
    if j > 0 {
      UnfetchedUpdate(sq[1..], j - 1, st);
      assert sq[j := st][1..] == sq[1..][j - 1 := st];
      SwapIn(UnfetchedId(sq[0]), UnfetchedIds(sq[1..]), UnfetchedId(sq[j]), UnfetchedId(st));
    } else {
      assert sq[0 := st][1..] == sq[1..];
      SwapIn(multiset{}, UnfetchedIds(sq), UnfetchedId(sq[0]), UnfetchedId(st));
    }
  }

  lemma {:induction false} WaitsUpdate(sq: seq<Store>, j: nat, st: Store)
    requires j < |sq|
    ensures Waiting(sq[j]) <= Waits(sq)
    ensures Waits(sq[j := st]) == Waits(sq) - Waiting(sq[j]) + Waiting(st)
  {
    if j > 0 {
      WaitsUpdate(sq[1..], j - 1, st);
      assert sq[j := st][1..] == sq[1..][j - 1 := st];
    }
  }

  predicate SameStores(x: seq<Store>, y: seq<Store>) {
    |x| == |y| && forall j :: 0 <= j < |x| ==> y[j] == x[j].(ready := y[j].ready)
  }

  lemma {:induction false} UnfetchedSame(x: seq<Store>, y: seq<Store>)
    requires SameStores(x, y)
    ensures UnfetchedIds(x) == UnfetchedIds(y) && Waits(x) == Waits(y) && Keys(x) == Keys(y)
  {
    if x != [] { UnfetchedSame(x[1..], y[1..]); }
  }

  lemma {:induction false} AllFetched(sq: seq<Store>)
    requires forall j :: 0 <= j < |sq| ==> sq[j].fetched
    ensures UnfetchedIds(sq) == multiset{} && Waits(sq) == multiset{}
  {
    if sq != [] { AllFetched(sq[1..]); }
  }

  // --------------------------------------------------------------- store order

  function Keys(sq: seq<Store>): (ks: seq<StoreKey>)
    ensures |ks| == |sq| && forall j :: 0 <= j < |sq| ==> ks[j] == KeyOf(sq[j])
  {
    if sq == [] then [] else [KeyOf(sq[0])] + Keys(sq[1..])
  }

  function KeysOf(id: nat, addrs: seq<Addr>): (ks: seq<StoreKey>)
    ensures |ks| == |addrs| && forall j :: 0 <= j < |addrs| ==> ks[j] == StoreKey(id, addrs[j])
  {
    if addrs == [] then [] else [StoreKey(id, addrs[0])] + KeysOf(id, addrs[1..])
  }

  // Every store of a piece of program, in program order.
  function StoresOf(program: seq<Instr>): seq<StoreKey> {
    if program == [] then [] else KeysOf(program[0].id, program[0].dstMem) + StoresOf(program[1..])
  }

  lemma {:induction false} StoresConcat(x: seq<Instr>, y: seq<Instr>)
    ensures StoresOf(x + y) == StoresOf(x) + StoresOf(y)
  {
    if x == [] {
      assert x + y == y;
    } else {
      StoresConcat(x[1..], y);
      assert (x + y)[1..] == x[1..] + y;
      ConcatAssoc(KeysOf(x[0].id, x[0].dstMem), StoresOf(x[1..]), StoresOf(y));
    }
  }

  // A store's id is the id of an instruction of that piece of program.
  lemma {:induction false} StoreHasOwner(program: seq<Instr>, k: nat)
    requires k < |StoresOf(program)|
    ensures exists i :: 0 <= i < |program| && program[i].id == StoresOf(program)[k].id
  {
    var n := |program[0].dstMem|;
    if k >= n {
      StoreHasOwner(program[1..], k - n);
      var i :| 0 <= i < |program[1..]| && program[1..][i].id == StoresOf(program[1..])[k - n].id;
      assert program[i + 1].id == StoresOf(program)[k].id;
    }
  }

  predicate SameMem(x: Instr, y: Instr) {
    x.id == y.id && x.srcMem == y.srcMem && x.dstMem == y.dstMem
  }

  lemma {:induction false} StoresSame(x: seq<Instr>, y: seq<Instr>)
    requires |x| == |y| && forall i :: 0 <= i < |x| ==> SameMem(x[i], y[i])
    ensures StoresOf(x) == StoresOf(y)
    ensures (forall i :: 0 <= i < |x| ==> x[i].memDone == y[i].memDone) ==> Owed(x) == Owed(y)
  {
    if x != [] {
      assert SameMem(x[0], y[0]);
      StoresSame(x[1..], y[1..]);
    }
  }

  // ----------------------------------------------------------------- invariant

  predicate Parked(slot: Option<Load>) {
    slot.Some? && slot.value.producer.Some?
  }

  function ParkedSlots(lq: LoadQueue, n: nat): multiset<nat>
    requires n <= |lq|
  {
    if n == 0 then multiset{}
    else ParkedSlots(lq, n - 1) + if Parked(lq[n - 1]) then multiset{n - 1} else multiset{}
  }

  ghost predicate OneWaiterEach(lq: LoadQueue, sq: seq<Store>) {
    forall s: nat :: Waits(sq)[s] == if s < |lq| && Parked(lq[s]) then 1 else 0
  }

  lemma {:induction false} ParkedSlotsAt(lq: LoadQueue, n: nat, s: nat)
    requires n <= |lq|
    ensures ParkedSlots(lq, n)[s] == if s < n && Parked(lq[s]) then 1 else 0
  {
    if n > 0 { ParkedSlotsAt(lq, n - 1, s); }
  }

  // The invariant says it as an equality of multisets.
  lemma {:induction false} OneWaiterEachIff(lq: LoadQueue, sq: seq<Store>)
    ensures OneWaiterEach(lq, sq) <==> Waits(sq) == ParkedSlots(lq, |lq|)
  {
    forall s: nat ensures ParkedSlots(lq, |lq|)[s] == if s < |lq| && Parked(lq[s]) then 1 else 0 {
      ParkedSlotsAt(lq, |lq|, s);
    }
    if OneWaiterEach(lq, sq) {
      forall s: nat ensures Waits(sq)[s] == ParkedSlots(lq, |lq|)[s] {}
    }
  }

  predicate AllWaitersOk(lq: LoadQueue, sq: seq<Store>) {
    forall j :: 0 <= j < |sq| && !sq[j].fetched ==> WaitersOk(lq, sq[j])
  }

  predicate ParkedUnissued(lq: LoadQueue) {
    forall s :: 0 <= s < |lq| && Parked(lq[s]) ==> !lq[s].value.issued
  }

  // Parked loads and waiting lists correspond one to one.
  predicate Parking(lq: LoadQueue, sq: seq<Store>) {
    Waits(sq) == ParkedSlots(lq, |lq|) && AllWaitersOk(lq, sq) && ParkedUnissued(lq)
  }

  // A waiting load is younger than its store and reads exactly its address.
  predicate WaiterOk(lq: LoadQueue, st: Store, w: nat) {
    && w < |lq| && lq[w].Some?
    && var load := lq[w].value;
       load.producer == Some(st.id) && load.addr == st.addr && st.id < load.id
  }

  predicate WaitersOk(lq: LoadQueue, st: Store) {
    forall k :: 0 <= k < |st.waiters| ==> WaiterOk(lq, st, st.waiters[k])
  }

  predicate FetchedFirst(sq: seq<Store>) {
    forall i, j :: 0 <= i < j < |sq| && sq[j].fetched ==> sq[i].fetched
  }

  predicate CountersOk(rob: seq<Instr>) {
    forall i :: 0 <= i < |rob| ==>
      rob[i].memDone <= rob[i].NumMemOps() && (rob[i].completed ==> rob[i].memDone == rob[i].NumMemOps())
  }

  // `written` is what the L1D has been given so far.
  ghost predicate LsqParts(s: Lsq, retired: seq<Instr>, written: seq<StoreKey>) {
    && SortedIds(retired + s.rob)
    && CountersOk(s.rob)
    && Owed(s.rob) == LqIds(s.lq) + UnfetchedIds(s.sq)
    && FetchedFirst(s.sq)
    && Parking(s.lq, s.sq)
    && written + Keys(s.sq) == StoresOf(retired) + StoresOf(s.rob)
    && |written| <= |StoresOf(retired)|
  }

  // Sealed like the invariant of the reorder buffer.
  predicate LsqSeal(k: nat) {
    true
  }

  ghost predicate LsqInv(s: Lsq, retired: seq<Instr>, written: seq<StoreKey>) {
    forall k: nat :: LsqSeal(k) ==> LsqParts(s, retired, written)
  }

  lemma {:induction false} OpenLsqInv(s: Lsq, retired: seq<Instr>, written: seq<StoreKey>)
    requires LsqInv(s, retired, written)
    ensures LsqParts(s, retired, written)
  {
    assert LsqSeal(0);
  }

  // Exactly the first j stores have executed.
  predicate FetchedUpTo(sq: seq<Store>, j: nat) {
    j <= |sq| && forall k :: 0 <= k < |sq| ==> (sq[k].fetched <==> k < j)
  }

  lemma {:induction false} FetchedBoundary(sq: seq<Store>)
    requires FetchedFirst(sq)
    ensures FetchedUpTo(sq, FirstUnfetched(sq))
  {
  }

  // Only memory-operation counters differ.
  predicate OnlyCounts(x: seq<Instr>, y: seq<Instr>) {
    |x| == |y| && forall i :: 0 <= i < |x| ==> y[i] == x[i].(memDone := y[i].memDone)
  }

  lemma {:induction false} FinishInv(rob: seq<Instr>, id: nat)
    requires SortedIds(rob) && CountersOk(rob) && id in Owed(rob)
    ensures FinishSafe(rob, id)
    ensures var r := Finish(rob, id);
            SortedIds(r) && CountersOk(r) && OnlyCounts(rob, r) && Owed(r) == Owed(rob) - multiset{id}
  {
    FinishOwed(rob, id);
    var i := FirstNotBefore(rob, id);
    var r := Finish(rob, id);
    assert r == rob[i := CountMemOp(rob[i])];
    forall j, k | 0 <= j < k < |r| ensures r[j].id < r[k].id { assert rob[j].id < rob[k].id; }
  }

  // ------------------------------------------------------------ store execution

  predicate Slots(lq: LoadQueue, ws: seq<nat>) {
    && (forall k :: 0 <= k < |ws| ==> ws[k] < |lq| && lq[ws[k]].Some?)
    && (forall i, j :: 0 <= i < j < |ws| ==> ws[i] != ws[j])
  }

  // Releasing waiting loads counts each of them once and empties its slot; the
  // `rest` of the outstanding operations is untouched.
  lemma {:induction false} ReleaseInv(rob: seq<Instr>, lq: LoadQueue, ws: seq<nat>, rest: multiset<nat>)
    requires SortedIds(rob) && CountersOk(rob) && Owed(rob) == LqIds(lq) + rest && Slots(lq, ws)
    ensures var (r, l) := Release(rob, lq, ws);
            && SortedIds(r) && CountersOk(r) && OnlyCounts(rob, r) && Owed(r) == LqIds(l) + rest
            && (forall s :: 0 <= s < |lq| ==> l[s] == if s in ws then None else lq[s])
  {
    hide SortedIds, CountersOk, Owed, Finish, LqIds;
    if ws != [] {
      var n := |ws| - 1;
      var (r, l) := Release(rob, lq, ws[..n]);
      ReleaseInv(rob, lq, ws[..n], rest);
      var w := ws[n];
      assert w !in ws[..n];
      assert l[w] == lq[w];
      LqClear(l, w);
      FinishInv(r, l[w].value.id);
      assert Release(rob, lq, ws) == (Finish(r, l[w].value.id), l[w := None]);
      assert forall s: nat :: s in ws <==> s in ws[..n] || s == w;
    }
  }

  lemma {:induction false} WaitersDistinct(lq: LoadQueue, sq: seq<Store>, j: nat)
    requires Parking(lq, sq) && j < |sq| && !sq[j].fetched
    ensures Slots(lq, sq[j].waiters)
  {
    OneWaiterEachIff(lq, sq);
    var ws := sq[j].waiters;
    WaitsUpdate(sq, j, sq[j]);
    assert WaitersOk(lq, sq[j]);
    forall a, b | 0 <= a < b < |ws| ensures ws[a] != ws[b] {
      assert Waits(sq)[ws[a]] <= 1;
      if ws[a] == ws[b] { TwiceInSeq(ws, a, b); }
    }
  }

  predicate Cleared(lq: LoadQueue, l: LoadQueue, ws: seq<nat>) {
    |l| == |lq| && forall s :: 0 <= s < |lq| ==> l[s] == if s in ws then None else lq[s]
  }

  lemma {:induction false} WaitsAfterFetch(lq: LoadQueue, l: LoadQueue, sq: seq<Store>, j: nat, st: Store)
    requires Parking(lq, sq) && j < |sq| && !sq[j].fetched && st.fetched && Cleared(lq, l, sq[j].waiters)
    ensures Waits(sq[j := st]) == Waits(sq) - multiset(sq[j].waiters)
    ensures OneWaiterEach(l, sq[j := st])
  {
    OneWaiterEachIff(lq, sq);
    WaitsUpdate(sq, j, st);
    assert WaitersOk(lq, sq[j]);
    forall s: nat ensures Waits(sq[j := st])[s] == if s < |l| && Parked(l[s]) then 1 else 0 {
      assert Waits(sq)[s] == if s < |lq| && Parked(lq[s]) then 1 else 0;
      assert s in sq[j].waiters <==> s in multiset(sq[j].waiters);
      if s in sq[j].waiters {
        var k :| 0 <= k < |sq[j].waiters| && sq[j].waiters[k] == s;
      }
    }
  }

  lemma {:induction false} WaitsMember(sq: seq<Store>, slot: nat)
    requires slot in Waits(sq)
    ensures exists j :: 0 <= j < |sq| && !sq[j].fetched && slot in sq[j].waiters
  {
    if slot in Waiting(sq[0]) {
      assert slot in sq[0].waiters;
    } else {
      WaitsMember(sq[1..], slot);
      var j :| 0 <= j < |sq| - 1 && !sq[1..][j].fetched && slot in sq[1..][j].waiters;
      assert sq[j + 1] == sq[1..][j];
    }
  }

  // The store a parked load waits for: unexecuted, older, to exactly its address.
  predicate WaitsFor(lq: LoadQueue, slot: nat, st: Store)
    requires slot < |lq|
  {
    !st.fetched && slot in st.waiters && WaiterOk(lq, st, slot)
  }

  // A load that waits is unissued and listed exactly once, by the store it waits
  // for; a load that does not wait is listed nowhere.
  lemma {:induction false} ParkedOnce(lq: LoadQueue, sq: seq<Store>, slot: nat)
    requires Parking(lq, sq) && slot < |lq|
    ensures Waits(sq)[slot] == if Parked(lq[slot]) then 1 else 0
    ensures Parked(lq[slot]) ==> !lq[slot].value.issued && exists j :: 0 <= j < |sq| && WaitsFor(lq, slot, sq[j])
  {
    OneWaiterEachIff(lq, sq);
    if Parked(lq[slot]) {
      assert slot in Waits(sq);
      WaitsMember(sq, slot);
      var j :| 0 <= j < |sq| && !sq[j].fetched && slot in sq[j].waiters;
      assert WaitersOk(lq, sq[j]);
      assert WaitsFor(lq, slot, sq[j]);
    }
  }

  // Another waiting store holds none of the released slots.
  lemma {:induction false} OthersKeepWaiters(lq: LoadQueue, l: LoadQueue, sq: seq<Store>, i: nat, ws: seq<nat>)
    requires i < |sq| && !sq[i].fetched && WaitersOk(lq, sq[i]) && Cleared(lq, l, ws)
    requires forall s :: s in ws ==> Waits(sq)[s] == 0
    ensures WaitersOk(l, sq[i])
  {
    WaitsUpdate(sq, i, sq[i]);
    forall k | 0 <= k < |sq[i].waiters| ensures l[sq[i].waiters[k]] == lq[sq[i].waiters[k]] {
      assert sq[i].waiters[k] in multiset(sq[i].waiters);
      assert Waits(sq)[sq[i].waiters[k]] >= 1;
    }
  }

  lemma {:induction false} WaitersAfterFetch(lq: LoadQueue, l: LoadQueue, sq: seq<Store>, j: nat, st: Store)
    requires AllWaitersOk(lq, sq) && j < |sq| && !sq[j].fetched && st.fetched && Cleared(lq, l, sq[j].waiters)
    requires OneWaiterEach(l, sq[j := st])
    ensures AllWaitersOk(l, sq[j := st])
  {
    var sq' := sq[j := st];
    assert WaitersOk(lq, sq[j]);
    forall s | s in sq[j].waiters ensures Waits(sq')[s] == 0 {
      var k :| 0 <= k < |sq[j].waiters| && sq[j].waiters[k] == s;
      assert WaiterOk(lq, sq[j], s);
    }
    forall i | 0 <= i < |sq'| && !sq'[i].fetched ensures WaitersOk(l, sq'[i]) {
      assert sq'[i] == sq[i] && WaitersOk(lq, sq[i]);
      OthersKeepWaiters(lq, l, sq', i, sq[j].waiters);
    }
  }

  // After store j has executed, the slots it held are empty and everyone else's waiters are as before.
  lemma {:induction false} ParkingAfterFetch(lq: LoadQueue, l: LoadQueue, sq: seq<Store>, j: nat, st: Store)
    requires Parking(lq, sq) && j < |sq| && !sq[j].fetched && st.fetched && Cleared(lq, l, sq[j].waiters)
    ensures Parking(l, sq[j := st])
  {
    WaitsAfterFetch(lq, l, sq, j, st);
    WaitersAfterFetch(lq, l, sq, j, st);
    OneWaiterEachIff(l, sq[j := st]);
  }

  // The store's own operation and those of its waiters are counted once each.
  lemma {:induction false} FetchAccounting(rob: seq<Instr>, lq: LoadQueue, sq: seq<Store>, j: nat, st: Store)
    requires SortedIds(rob) && CountersOk(rob) && Owed(rob) == LqIds(lq) + UnfetchedIds(sq)
    requires j < |sq| && !sq[j].fetched && st.id == sq[j].id && st.fetched && Slots(lq, sq[j].waiters)
    ensures FinishSafe(rob, sq[j].id)
    ensures var (r, l) := FinishStore(rob, lq, sq[j]);
            && CountersOk(r) && OnlyCounts(rob, r) && Owed(r) == LqIds(l) + UnfetchedIds(sq[j := st])
            && Cleared(lq, l, sq[j].waiters)
  {
    hide SortedIds, CountersOk, Owed, LqIds, UnfetchedIds, Finish, Release;
    UnfetchedUpdate(sq, j, st);
    assert sq[j].id in UnfetchedIds(sq);
    FinishInv(rob, sq[j].id);
    ReleaseInv(Finish(rob, sq[j].id), lq, sq[j].waiters, UnfetchedIds(sq[j := st]));
  }

  // Executing the first unexecuted store: all the assertions on the way hold.
  lemma {:induction false} FetchOneInv(s: Lsq, retired: seq<Instr>, written: seq<StoreKey>, j: nat, now: int)
    requires LsqInv(s, retired, written) && j < |s.sq| && FetchedUpTo(s.sq, j)
    ensures FinishSafe(s.rob, s.sq[j].id)
    ensures LsqInv(FetchOne(s, j, now), retired, written) && FetchedUpTo(FetchOne(s, j, now).sq, j + 1)
    ensures OnlyCounts(s.rob, FetchOne(s, j, now).rob)
  {
    hide SortedIds, CountersOk, Owed, LqIds, UnfetchedIds, Parking;
    OpenLsqInv(s, retired, written);
    var st := s.sq[j].(fetched := true, ready := Some(now));
    var (r, l) := FinishStore(s.rob, s.lq, s.sq[j]);
    SortedTail(retired, s.rob);
    WaitersDistinct(s.lq, s.sq, j);
    FetchAccounting(s.rob, s.lq, s.sq, j, st);
    ParkingAfterFetch(s.lq, l, s.sq, j, st);
    CountsFrame(s.rob, r, retired);
    KeysUpdate(s.sq, j, st);
    assert FetchOne(s, j, now) == Lsq(r, l, s.sq[j := st]);
  }

  lemma {:induction false} CountsFrame(x: seq<Instr>, y: seq<Instr>, retired: seq<Instr>)
    requires OnlyCounts(x, y) && SortedIds(retired + x)
    ensures SortedIds(retired + y) && StoresOf(y) == StoresOf(x)
  {
    assert forall i :: 0 <= i < |x| ==> SameMem(x[i], y[i]);
    StoresSame(x, y);
    forall i, j | 0 <= i < j < |retired + y| ensures (retired + y)[i].id < (retired + y)[j].id {
      assert (retired + x)[i].id < (retired + x)[j].id;
    }
  }

  lemma {:induction false} KeysUpdate(sq: seq<Store>, j: nat, st: Store)
    requires j < |sq| && st.id == sq[j].id && st.addr == sq[j].addr
    ensures Keys(sq[j := st]) == Keys(sq)
  {
  }

  lemma {:induction false} OnlyCountsTrans(x: seq<Instr>, y: seq<Instr>, z: seq<Instr>)
    requires OnlyCounts(x, y) && OnlyCounts(y, z)
    ensures OnlyCounts(x, z)
  {
  }

  lemma {:induction false} FetchOneKeeps(s: Lsq, retired: seq<Instr>, written: seq<StoreKey>, j: nat, now: int)
    requires LsqInv(s, retired, written) && j < |s.sq| && FetchedUpTo(s.sq, j)
    ensures LsqInv(FetchOne(s, j, now), retired, written) && FetchedUpTo(FetchOne(s, j, now).sq, j + 1)
  {
    FetchOneInv(s, retired, written, j, now);
  }

  lemma {:induction false} FetchStoresInv(s: Lsq, retired: seq<Instr>, written: seq<StoreKey>, j: nat, n: nat, now: int)
    requires LsqInv(s, retired, written) && j + n <= |s.sq| && FetchedUpTo(s.sq, j)
    ensures LsqInv(FetchStores(s, j, n, now), retired, written)
    decreases n
  {
    hide FetchOne;
    if n > 0 {
      FetchOneKeeps(s, retired, written, j, now);
      FetchStoresInv(FetchOne(s, j, now), retired, written, j + 1, n - 1, now);
    }
  }

  // ------------------------------------------------------- assertions on the way

  // The assertions do_finish_store makes about one waiting load, just before it is released.
  predicate WaiterSafe(rob: seq<Instr>, lq: LoadQueue, st: Store, w: nat) {
    && w < |lq| && lq[w].Some? && lq[w].value.producer == Some(st.id)
    && SortedIds(rob) && FinishSafe(rob, lq[w].value.id)
  }

  predicate ReleaseSafe(rob: seq<Instr>, lq: LoadQueue, st: Store) {
    forall k :: 0 <= k < |st.waiters| ==>
      var (r, l) := Release(rob, lq, st.waiters[..k]); WaiterSafe(r, l, st, st.waiters[k])
  }

  // All assertions on the way of do_finish_store; sealed, as states are.
  predicate AllSafe(rob: seq<Instr>, lq: LoadQueue, st: Store) {
    SortedIds(rob) && FinishSafe(rob, st.id) && ReleaseSafe(Finish(rob, st.id), lq, st)
  }

  ghost predicate FinishStoreSafe(rob: seq<Instr>, lq: LoadQueue, st: Store) {
    forall k: nat :: LsqSeal(k) ==> AllSafe(rob, lq, st)
  }

  lemma {:induction false} OpenSafe(rob: seq<Instr>, lq: LoadQueue, st: Store)
    requires FinishStoreSafe(rob, lq, st)
    ensures AllSafe(rob, lq, st)
  {
    assert LsqSeal(0);
  }

  lemma {:induction false} WaiterIsSafe(rob: seq<Instr>, lq: LoadQueue, st: Store, rest: multiset<nat>, k: nat)
    requires SortedIds(rob) && CountersOk(rob) && Owed(rob) == LqIds(lq) + rest && Slots(lq, st.waiters)
    requires WaitersOk(lq, st) && k < |st.waiters|
    ensures var (r, l) := Release(rob, lq, st.waiters[..k]); WaiterSafe(r, l, st, st.waiters[k])
  {
    var ws, w := st.waiters, st.waiters[k];
    var (r, l) := Release(rob, lq, ws[..k]);
    ReleaseInv(rob, lq, ws[..k], rest);
    assert w !in ws[..k];
    assert WaiterOk(lq, st, w);
    LqClear(l, w);
    FinishOwed(r, l[w].value.id);
  }

  // Executing the first unexecuted store meets none of them failing.
  lemma {:induction false} FirstStoreSafe(s: Lsq, retired: seq<Instr>, written: seq<StoreKey>, j: nat)
    requires LsqInv(s, retired, written) && j < |s.sq| && !s.sq[j].fetched
    ensures FinishStoreSafe(s.rob, s.lq, s.sq[j])
  {
    hide Owed, LqIds, Waits;
    OpenLsqInv(s, retired, written);
    var st := s.sq[j];
    var rest := UnfetchedIds(s.sq[j := st.(fetched := true)]);
    SortedTail(retired, s.rob);
    WaitersDistinct(s.lq, s.sq, j);
    UnfetchedUpdate(s.sq, j, st.(fetched := true));
    assert st.id in UnfetchedIds(s.sq);
    FinishInv(s.rob, st.id);
    assert WaitersOk(s.lq, st);
    assert Slots(s.lq, st.waiters);
    forall k | 0 <= k < |st.waiters|
      ensures var (r, l) := Release(Finish(s.rob, st.id), s.lq, st.waiters[..k]); WaiterSafe(r, l, st, st.waiters[k])
    {
      WaiterIsSafe(Finish(s.rob, st.id), s.lq, st, rest, k);
    }
  }

  ghost predicate StoresSafe(s: Lsq, j: nat, n: nat, now: int)
    requires j + n <= |s.sq|
    decreases n
  {
    n == 0 || (FinishStoreSafe(s.rob, s.lq, s.sq[j]) && StoresSafe(FetchOne(s, j, now), j + 1, n - 1, now))
  }

  lemma {:induction false} StoresAreSafe(s: Lsq, retired: seq<Instr>, written: seq<StoreKey>, j: nat, n: nat, now: int)
    requires LsqInv(s, retired, written) && j + n <= |s.sq| && FetchedUpTo(s.sq, j)
    ensures StoresSafe(s, j, n, now)
    decreases n
  {
    if n > 0 {
      FirstStoreSafe(s, retired, written, j);
      FetchOneKeeps(s, retired, written, j, now);
      StoresAreSafe(FetchOne(s, j, now), retired, written, j + 1, n - 1, now);
    }
  }

  lemma {:induction false} ReleaseCounts(rob: seq<Instr>, lq: LoadQueue, ws: seq<nat>)
    ensures OnlyCounts(rob, Release(rob, lq, ws).0)
  {
    if ws != [] { ReleaseCounts(rob, lq, ws[..|ws| - 1]); }
  }

  lemma {:induction false} FetchOneCounts(s: Lsq, j: nat, now: int)
    requires j < |s.sq|
    ensures OnlyCounts(s.rob, FetchOne(s, j, now).rob)
  {
    var st := s.sq[j];
    ReleaseCounts(Finish(s.rob, st.id), s.lq, st.waiters);
    OnlyCountsTrans(s.rob, Finish(s.rob, st.id), Release(Finish(s.rob, st.id), s.lq, st.waiters).0);
  }

  lemma {:induction false} FetchStoresCounts(s: Lsq, j: nat, n: nat, now: int)
    requires j + n <= |s.sq|
    ensures OnlyCounts(s.rob, FetchStores(s, j, n, now).rob)
    decreases n
  {
    if n > 0 {
      var t := FetchOne(s, j, now);
      FetchOneCounts(s, j, now);
      FetchStoresCounts(t, j + 1, n - 1, now);
      OnlyCountsTrans(s.rob, t.rob, FetchStores(t, j + 1, n - 1, now).rob);
    }
  }

  // ----------------------------------------------------- stores reach the L1D

  lemma {:induction false} UnfetchedMember(sq: seq<Store>, j: nat)
    requires j < |sq| && !sq[j].fetched
    ensures sq[j].id in UnfetchedIds(sq)
  {
    UnfetchedUpdate(sq, j, sq[j]);
    assert sq[j].id in UnfetchedId(sq[j]);
  }

  // An unexecuted store still has its instruction in the reorder buffer.
  lemma {:induction false} UnfetchedNotRetired(s: Lsq, retired: seq<Instr>, written: seq<StoreKey>, j: nat)
    requires LsqInv(s, retired, written) && j < |s.sq| && !s.sq[j].fetched
    ensures s.rob != [] && s.sq[j].id >= s.rob[0].id
  {
    OpenLsqInv(s, retired, written);
    UnfetchedMember(s.sq, j);
    assert s.sq[j].id in Owed(s.rob);
    OwedMember(s.rob, s.sq[j].id);
    SortedTail(retired, s.rob);
  }

  // Past the stores of the retired program, the queue holds only stores of
  // instructions that are still in the reorder buffer.
  lemma {:induction false} QueuedPastRetired(retired: seq<Instr>, rob: seq<Instr>, written: seq<StoreKey>, sq: seq<Store>, i: nat)
    requires SortedIds(rob) && i < |sq|
    requires written + Keys(sq) == StoresOf(retired) + StoresOf(rob) && |written| + i >= |StoresOf(retired)|
    ensures rob != [] && sq[i].id >= rob[0].id
  {
    var at := |written| + i;
    var k := at - |StoresOf(retired)|;
    assert (written + Keys(sq))[at] == Keys(sq)[i];
    assert (StoresOf(retired) + StoresOf(rob))[at] == StoresOf(rob)[k];
    StoreHasOwner(rob, k);
  }

  lemma {:induction false} ParkingDrop(lq: LoadQueue, sq: seq<Store>)
    requires Parking(lq, sq) && sq != [] && sq[0].fetched
    ensures Parking(lq, sq[1..]) && UnfetchedIds(sq[1..]) == UnfetchedIds(sq)
  {
    forall j | 0 <= j < |sq| - 1 && !sq[1..][j].fetched ensures WaitersOk(lq, sq[1..][j]) {
      assert WaitersOk(lq, sq[j + 1]);
    }
  }

  // The oldest queued store may leave only once its instruction has retired, and
  // by then it has executed.
  lemma {:induction false} CompleteOneInv(s: Lsq, retired: seq<Instr>, written: seq<StoreKey>)
    requires LsqInv(s, retired, written) && s.sq != []
    requires s.rob == [] || s.sq[0].id < s.rob[0].id
    ensures s.sq[0].fetched
    ensures LsqInv(s.(sq := s.sq[1..]), retired, written + [KeyOf(s.sq[0])])
  {
    OpenLsqInv(s, retired, written);
    if !s.sq[0].fetched { UnfetchedNotRetired(s, retired, written, 0); }
    SortedTail(retired, s.rob);
    if |written| == |StoresOf(retired)| { QueuedPastRetired(retired, s.rob, written, s.sq, 0); }
    ParkingDrop(s.lq, s.sq);
    ConcatAssoc(written, [KeyOf(s.sq[0])], Keys(s.sq[1..]));
  }

  lemma {:induction false} KeysConcat(x: seq<Store>, y: seq<Store>)
    ensures Keys(x + y) == Keys(x) + Keys(y)
  {
  }

  // The L1D has been given exactly the first stores of the retired program, in
  // program order, each once.
  lemma {:induction false} WrittenInProgramOrder(s: Lsq, retired: seq<Instr>, written: seq<StoreKey>)
    requires LsqInv(s, retired, written)
    ensures written <= StoresOf(retired)
  {
    OpenLsqInv(s, retired, written);
    assert (written + Keys(s.sq))[..|written|] == written;
    assert (StoresOf(retired) + StoresOf(s.rob))[..|written|] == StoresOf(retired)[..|written|];
  }

  // ------------------------------------------------------------- memory return

  // Loads may become ready, and unparked ones may be issued.
  predicate SimilarLoads(x: LoadQueue, y: LoadQueue) {
    |x| == |y| && forall s :: 0 <= s < |x| ==>
      && (x[s].None? <==> y[s].None?)
      && (x[s].Some? ==>
            && y[s].value == x[s].value.(ready := y[s].value.ready, issued := y[s].value.issued)
            && (Parked(x[s]) ==> y[s].value.issued == x[s].value.issued))
  }

  lemma {:induction false} ParkedSlotsSame(x: LoadQueue, y: LoadQueue, n: nat)
    requires n <= |x| == |y| && forall s :: 0 <= s < |x| ==> (Parked(x[s]) <==> Parked(y[s]))
    ensures ParkedSlots(x, n) == ParkedSlots(y, n)
  {
    if n > 0 { ParkedSlotsSame(x, y, n - 1); }
  }

  lemma {:induction false} SimilarParking(x: LoadQueue, y: LoadQueue, sq: seq<Store>, sq': seq<Store>)
    requires Parking(x, sq) && SimilarLoads(x, y) && SameStores(sq, sq')
    ensures Parking(y, sq')
  {
    UnfetchedSame(sq, sq');
    ParkedSlotsSame(x, y, |x|);
    forall j | 0 <= j < |sq'| && !sq'[j].fetched ensures WaitersOk(y, sq'[j]) {
      assert WaitersOk(x, sq[j]);
      forall k | 0 <= k < |sq'[j].waiters| ensures WaiterOk(y, sq'[j], sq'[j].waiters[k]) {
        assert WaiterOk(x, sq[j], sq[j].waiters[k]);
      }
    }
  }

  lemma {:induction false} ReadinessFrame(s: Lsq, lq: LoadQueue, sq: seq<Store>, retired: seq<Instr>, written: seq<StoreKey>)
    requires LsqInv(s, retired, written) && SimilarLoads(s.lq, lq) && SameStores(s.sq, sq)
    ensures LsqInv(Lsq(s.rob, lq, sq), retired, written)
  {
    OpenLsqInv(s, retired, written);
    UnfetchedSame(s.sq, sq);
    LqIdsSame(s.lq, lq);
    SimilarParking(s.lq, lq, s.sq, sq);
  }

  lemma {:induction false} IssueSimilar(lq: LoadQueue, s: nat, bw: nat, room: nat, now: int)
    requires s <= |lq|
    ensures SimilarLoads(lq, IssueLoads(lq, s, bw, room, now))
    decreases |lq| - s
  {
    if !(s == |lq| || bw == 0 || room == 0) {
      if MayIssue(lq[s], now) {
        IssueSimilar(lq[s := Some(lq[s].value.(issued := true))], s + 1, bw - 1, room - 1, now);
      } else {
        IssueSimilar(lq, s + 1, bw, room, now);
      }
    }
  }

  // Filling or emptying a slot that is not parked, before and after.
  lemma {:induction false} ParkingElsewhere(lq: LoadQueue, sq: seq<Store>, s: nat, slot: Option<Load>)
    requires Parking(lq, sq) && s < |lq| && !Parked(lq[s]) && !Parked(slot)
    ensures Parking(lq[s := slot], sq)
  {
    var l := lq[s := slot];
    ParkedSlotsSame(lq, l, |lq|);
    OneWaiterEachIff(lq, sq);
    forall j | 0 <= j < |sq| && !sq[j].fetched ensures WaitersOk(l, sq[j]) {
      assert WaitersOk(lq, sq[j]);
      forall k | 0 <= k < |sq[j].waiters| ensures WaiterOk(l, sq[j], sq[j].waiters[k]) {
        assert WaiterOk(lq, sq[j], sq[j].waiters[k]);
      }
    }
  }

  // A load answered by the L1D is counted for its own instruction and leaves its slot.
  lemma {:induction false} ReturnOneInv(s: Lsq, retired: seq<Instr>, written: seq<StoreKey>, n: nat)
    requires LsqInv(s, retired, written) && n < |s.lq| && s.lq[n].Some? && s.lq[n].value.issued
    ensures FinishSafe(s.rob, s.lq[n].value.id)
    ensures LsqInv(Lsq(Finish(s.rob, s.lq[n].value.id), s.lq[n := None], s.sq), retired, written)
    ensures OnlyCounts(s.rob, Finish(s.rob, s.lq[n].value.id))
  {
    OpenLsqInv(s, retired, written);
    var id := s.lq[n].value.id;
    SortedTail(retired, s.rob);
    LqClear(s.lq, n);
    FinishInv(s.rob, id);
    ParkingElsewhere(s.lq, s.sq, n, None);
    CountsFrame(s.rob, Finish(s.rob, id), retired);
  }

  lemma {:induction false} ReturnBlockInv(s: Lsq, retired: seq<Instr>, written: seq<StoreKey>, n: nat, blockBytes: BlockBytes, block: nat)
    requires LsqInv(s, retired, written) && n <= |s.lq|
    ensures var (r, l) := ReturnBlock(s.rob, s.lq, n, blockBytes, block);
            LsqInv(Lsq(r, l, s.sq), retired, written) && OnlyCounts(s.rob, r)
  {
    if n > 0 {
      var (r, l) := ReturnBlock(s.rob, s.lq, n - 1, blockBytes, block);
      ReturnBlockInv(s, retired, written, n - 1, blockBytes, block);
      if Answers(l[n - 1], blockBytes, block) {
        ReturnOneInv(Lsq(r, l, s.sq), retired, written, n - 1);
        OnlyCountsTrans(s.rob, r, Finish(r, l[n - 1].value.id));
      }
    }
  }

  lemma {:induction false} ReturnBlocksInv(s: Lsq, retired: seq<Instr>, written: seq<StoreKey>, blockBytes: BlockBytes, blocks: seq<nat>)
    requires LsqInv(s, retired, written)
    ensures var (r, l) := ReturnBlocks(s.rob, s.lq, blockBytes, blocks);
            LsqInv(Lsq(r, l, s.sq), retired, written) && OnlyCounts(s.rob, r)
  {
    if blocks != [] {
      var n := |blocks| - 1;
      var (r, l) := ReturnBlocks(s.rob, s.lq, blockBytes, blocks[..n]);
      ReturnBlocksInv(s, retired, written, blockBytes, blocks[..n]);
      ReturnBlockInv(Lsq(r, l, s.sq), retired, written, |l|, blockBytes, blocks[n]);
      OnlyCountsTrans(s.rob, r, ReturnBlock(r, l, |l|, blockBytes, blocks[n]).0);
    }
  }

  // The assertions of LSQ_ENTRY::finish for every load that one response answers.
  predicate AnswerSafe(rob: seq<Instr>, slot: Option<Load>, blockBytes: BlockBytes, block: nat) {
    SortedIds(rob) && (Answers(slot, blockBytes, block) ==> FinishSafe(rob, slot.value.id))
  }

  predicate BlockSafe(rob: seq<Instr>, lq: LoadQueue, blockBytes: BlockBytes, block: nat) {
    forall n :: 0 <= n < |lq| ==>
      var (r, l) := ReturnBlock(rob, lq, n, blockBytes, block); AnswerSafe(r, l[n], blockBytes, block)
  }

  predicate BlocksSafe(rob: seq<Instr>, lq: LoadQueue, blockBytes: BlockBytes, blocks: seq<nat>) {
    forall m :: 0 <= m < |blocks| ==>
      var (r, l) := ReturnBlocks(rob, lq, blockBytes, blocks[..m]); BlockSafe(r, l, blockBytes, blocks[m])
  }

  lemma {:induction false} AnswerIsSafe(s: Lsq, retired: seq<Instr>, written: seq<StoreKey>, n: nat, blockBytes: BlockBytes, block: nat)
    requires LsqInv(s, retired, written) && n < |s.lq|
    ensures AnswerSafe(s.rob, s.lq[n], blockBytes, block)
  {
    OpenLsqInv(s, retired, written);
    SortedTail(retired, s.rob);
    if Answers(s.lq[n], blockBytes, block) { ReturnOneInv(s, retired, written, n); }
  }

  lemma {:induction false} BlockIsSafe(s: Lsq, retired: seq<Instr>, written: seq<StoreKey>, blockBytes: BlockBytes, block: nat)
    requires LsqInv(s, retired, written)
    ensures BlockSafe(s.rob, s.lq, blockBytes, block)
  {
    forall n | 0 <= n < |s.lq|
      ensures var (r, l) := ReturnBlock(s.rob, s.lq, n, blockBytes, block); AnswerSafe(r, l[n], blockBytes, block)
    {
      var (r, l) := ReturnBlock(s.rob, s.lq, n, blockBytes, block);
      ReturnBlockInv(s, retired, written, n, blockBytes, block);
      AnswerIsSafe(Lsq(r, l, s.sq), retired, written, n, blockBytes, block);
    }
  }

  lemma {:induction false} BlocksAreSafe(s: Lsq, retired: seq<Instr>, written: seq<StoreKey>, blockBytes: BlockBytes, blocks: seq<nat>)
    requires LsqInv(s, retired, written)
    ensures BlocksSafe(s.rob, s.lq, blockBytes, blocks)
  {
    forall m | 0 <= m < |blocks|
      ensures var (r, l) := ReturnBlocks(s.rob, s.lq, blockBytes, blocks[..m]); BlockSafe(r, l, blockBytes, blocks[m])
    {
      var (r, l) := ReturnBlocks(s.rob, s.lq, blockBytes, blocks[..m]);
      ReturnBlocksInv(s, retired, written, blockBytes, blocks[..m]);
      BlockIsSafe(Lsq(r, l, s.sq), retired, written, blockBytes, blocks[m]);
    }
  }

  // ------------------------------------------------------------------ dispatch

  function CountEmpty(lq: LoadQueue): nat {
    if lq == [] then 0 else (if lq[0].None? then 1 else 0) + CountEmpty(lq[1..])
  }

  lemma {:induction false} EmptyExists(lq: LoadQueue)
    requires CountEmpty(lq) > 0
    ensures FirstEmpty(lq) < |lq|
  {
    if lq[0].Some? { EmptyExists(lq[1..]); }
  }

  lemma {:induction false} CountEmptyFill(lq: LoadQueue, s: nat, load: Load)
    requires s < |lq|
    ensures CountEmpty(lq[s := Some(load)]) >= CountEmpty(lq) - 1
  {
    if s > 0 {
      CountEmptyFill(lq[1..], s - 1, load);
      assert lq[s := Some(load)][1..] == lq[1..][s - 1 := Some(load)];
    }
  }

  predicate SameButWaiters(x: seq<Store>, y: seq<Store>) {
    |x| == |y| && forall j :: 0 <= j < |x| ==> y[j] == x[j].(waiters := y[j].waiters)
  }

  lemma {:induction false} SameButWaitersKeys(x: seq<Store>, y: seq<Store>)
    requires SameButWaiters(x, y)
    ensures UnfetchedIds(x) == UnfetchedIds(y) && Keys(x) == Keys(y)
  {
    if x != [] { SameButWaitersKeys(x[1..], y[1..]); }
  }

  function Park(st: Store, s: nat): Store {
    st.(waiters := st.waiters + [s])
  }

  lemma {:induction false} ParkedSlotsAdd(lq: LoadQueue, s: nat, load: Load, n: nat)
    requires n <= |lq| && s < |lq| && lq[s].None? && load.producer.Some?
    ensures ParkedSlots(lq[s := Some(load)], n) == ParkedSlots(lq, n) + if s < n then multiset{s} else multiset{}
  {
    if n > 0 { ParkedSlotsAdd(lq, s, load, n - 1); }
  }

  lemma {:induction false} WaitsPark(sq: seq<Store>, s: nat, m: nat)
    requires m < |sq| && !sq[m].fetched
    ensures Waits(sq[m := Park(sq[m], s)]) == Waits(sq) + multiset{s}
  {
    WaitsUpdate(sq, m, Park(sq[m], s));
    assert Waiting(Park(sq[m], s)) == Waiting(sq[m]) + multiset{s};
  }

  lemma {:induction false} WaitersPark(lq: LoadQueue, sq: seq<Store>, s: nat, load: Load, m: nat)
    requires AllWaitersOk(lq, sq) && s < |lq| && lq[s].None? && m < |sq|
    requires load.producer == Some(sq[m].id) && load.addr == sq[m].addr && sq[m].id < load.id
    ensures AllWaitersOk(lq[s := Some(load)], sq[m := Park(sq[m], s)])
  {
    var l, q := lq[s := Some(load)], sq[m := Park(sq[m], s)];
    forall j | 0 <= j < |q| && !q[j].fetched ensures WaitersOk(l, q[j]) {
      assert WaitersOk(lq, sq[j]);
      forall k | 0 <= k < |q[j].waiters| ensures WaiterOk(l, q[j], q[j].waiters[k]) {
        if k < |sq[j].waiters| { assert WaiterOk(lq, sq[j], sq[j].waiters[k]); }
      }
    }
  }

  lemma {:induction false} ParkingPark(lq: LoadQueue, sq: seq<Store>, s: nat, load: Load, m: nat)
    requires Parking(lq, sq) && s < |lq| && lq[s].None? && m < |sq| && !sq[m].fetched
    requires load.producer == Some(sq[m].id) && load.addr == sq[m].addr && sq[m].id < load.id && !load.issued
    ensures Parking(lq[s := Some(load)], sq[m := Park(sq[m], s)])
  {
    ParkedSlotsAdd(lq, s, load, |lq|);
    WaitsPark(sq, s, m);
    WaitersPark(lq, sq, s, load, m);
  }

  // The queues after n loads of instruction `id`, d of which finished at once.
  predicate LoadsAdded(lq: LoadQueue, sq: seq<Store>, id: nat, n: nat, l: LoadQueue, q: seq<Store>, d: nat) {
    && Parking(l, q) && SameButWaiters(sq, q)
    && CountEmpty(l) + n >= CountEmpty(lq) && d <= n
    && LqIds(l) + Times(id, d) == LqIds(lq) + Times(id, n)
  }

  lemma {:induction false} AddLoadShape(lq: LoadQueue, sq: seq<Store>, id: nat, addr: Addr)
    ensures var (l, q, d) := AddLoad(lq, sq, id, addr);
            CountEmpty(l) >= CountEmpty(lq) - 1 && SameButWaiters(sq, q) && d <= 1
  {
    var s := FirstEmpty(lq);
    var load := Load(addr, id, None, false, None);
    if s < |lq| {
      CountEmptyFill(lq, s, load);
      if sq != [] { CountEmptyFill(lq, s, load.(producer := Some(sq[ForwardFrom(sq, addr)].id))); }
    }
  }

  lemma {:induction false} AddLoadsShape(lq: LoadQueue, sq: seq<Store>, id: nat, addrs: seq<Addr>)
    ensures SameButWaiters(sq, AddLoads(lq, sq, id, addrs).1)
  {
    if addrs != [] {
      var n := |addrs| - 1;
      var (l, q, d) := AddLoads(lq, sq, id, addrs[..n]);
      AddLoadsShape(lq, sq, id, addrs[..n]);
      AddLoadShape(l, q, id, addrs[n]);
    }
  }

  lemma {:induction false} AddPlain(lq: LoadQueue, sq: seq<Store>, s: nat, load: Load)
    requires Parking(lq, sq) && s < |lq| && lq[s].None? && load.producer.None?
    ensures LoadsAdded(lq, sq, load.id, 1, lq[s := Some(load)], sq, 0)
  {
    LqFill(lq, s, load);
    CountEmptyFill(lq, s, load);
    ParkingElsewhere(lq, sq, s, Some(load));
  }

  lemma {:induction false} AddParked(lq: LoadQueue, sq: seq<Store>, s: nat, load: Load, m: nat)
    requires Parking(lq, sq) && s < |lq| && lq[s].None? && m < |sq| && !sq[m].fetched
    requires load.producer == Some(sq[m].id) && load.addr == sq[m].addr && sq[m].id < load.id && !load.issued
    ensures LoadsAdded(lq, sq, load.id, 1, lq[s := Some(load)], sq[m := Park(sq[m], s)], 0)
  {
    LqFill(lq, s, load);
    CountEmptyFill(lq, s, load);
    ParkingPark(lq, sq, s, load, m);
  }

  lemma {:induction false} AddLoadInv(lq: LoadQueue, sq: seq<Store>, id: nat, addr: Addr)
    requires Parking(lq, sq) && FirstEmpty(lq) < |lq| && forall j :: 0 <= j < |sq| ==> sq[j].id < id
    ensures var (l, q, d) := AddLoad(lq, sq, id, addr); LoadsAdded(lq, sq, id, 1, l, q, d)
  {
    var s := FirstEmpty(lq);
    var load := Load(addr, id, None, false, None);
    if sq == [] || sq[ForwardFrom(sq, addr)].addr != addr {
      AddPlain(lq, sq, s, load);
    } else {
      var m := ForwardFrom(sq, addr);
      if !sq[m].fetched { AddParked(lq, sq, s, load.(producer := Some(sq[m].id)), m); }
    }
  }

  lemma {:induction false} LoadsAddedTrans(lq: LoadQueue, sq: seq<Store>, id: nat, n: nat, l: LoadQueue, q: seq<Store>, d: nat,
                                           l2: LoadQueue, q2: seq<Store>, d2: nat)
    requires LoadsAdded(lq, sq, id, n, l, q, d) && LoadsAdded(l, q, id, 1, l2, q2, d2)
    ensures LoadsAdded(lq, sq, id, n + 1, l2, q2, d + d2)
  {
    assert Times(id, d + d2) == Times(id, d2) + Times(id, d);
    assert Times(id, n + 1) == Times(id, n) + Times(id, 1);
    calc {
      LqIds(l2) + Times(id, d + d2);
      (LqIds(l2) + Times(id, d2)) + Times(id, d);
      (LqIds(l) + Times(id, 1)) + Times(id, d);
      (LqIds(l) + Times(id, d)) + Times(id, 1);
      (LqIds(lq) + Times(id, n)) + Times(id, 1);
      LqIds(lq) + Times(id, n + 1);
    }
  }

  lemma {:induction false} AddLoadsInv(lq: LoadQueue, sq: seq<Store>, id: nat, addrs: seq<Addr>)
    requires Parking(lq, sq) && |addrs| <= CountEmpty(lq) && forall j :: 0 <= j < |sq| ==> sq[j].id < id
    ensures var (l, q, d) := AddLoads(lq, sq, id, addrs); LoadsAdded(lq, sq, id, |addrs|, l, q, d)
  {
    if addrs != [] {
      var n := |addrs| - 1;
      var (l, q, d) := AddLoads(lq, sq, id, addrs[..n]);
      AddLoadsInv(lq, sq, id, addrs[..n]);
      EmptyExists(l);
      var (l2, q2, d2) := AddLoad(l, q, id, addrs[n]);
      AddLoadInv(l, q, id, addrs[n]);
      LoadsAddedTrans(lq, sq, id, n, l, q, d, l2, q2, d2);
    }
  }

  lemma {:induction false} NewStoresInv(id: nat, addrs: seq<Addr>)
    ensures UnfetchedIds(NewStores(id, addrs)) == Times(id, |addrs|)
    ensures Waits(NewStores(id, addrs)) == multiset{}
    ensures Keys(NewStores(id, addrs)) == KeysOf(id, addrs)
  {
    var sts := NewStores(id, addrs);
    if addrs != [] {
      NewStoresInv(id, addrs[1..]);
      assert NewStores(id, addrs[1..]) == sts[1..];
    }
  }

  lemma {:induction false} OwedSnoc(rob: seq<Instr>, ins: Instr)
    ensures Owed(rob + [ins]) == Owed(rob) + Times(ins.id, Remaining(ins))
  {
    if rob != [] {
      OwedSnoc(rob[1..], ins);
      assert (rob + [ins])[1..] == rob[1..] + [ins];
    } else {
      assert rob + [ins] == [ins];
    }
  }

  lemma {:induction false} QueuedHasOwner(s: Lsq, retired: seq<Instr>, written: seq<StoreKey>, j: nat)
    requires LsqInv(s, retired, written) && j < |s.sq|
    ensures exists i :: 0 <= i < |retired + s.rob| && (retired + s.rob)[i].id == s.sq[j].id
  {
    OpenLsqInv(s, retired, written);
    StoresConcat(retired, s.rob);
    assert (written + Keys(s.sq))[|written| + j] == Keys(s.sq)[j];
    StoreHasOwner(retired + s.rob, |written| + j);
  }

  lemma {:induction false} AppendStores(lq: LoadQueue, q: seq<Store>, id: nat, addrs: seq<Addr>)
    requires Parking(lq, q) && FetchedFirst(q)
    ensures Parking(lq, q + NewStores(id, addrs)) && FetchedFirst(q + NewStores(id, addrs))
    ensures UnfetchedIds(q + NewStores(id, addrs)) == UnfetchedIds(q) + Times(id, |addrs|)
    ensures Keys(q + NewStores(id, addrs)) == Keys(q) + KeysOf(id, addrs)
  {
    var ns := NewStores(id, addrs);
    NewStoresInv(id, addrs);
    UnfetchedConcat(q, ns);
    WaitsConcat(q, ns);
    KeysConcat(q, ns);
    AppendWaiters(lq, q, ns);
  }

  lemma {:induction false} AppendWaiters(lq: LoadQueue, q: seq<Store>, ns: seq<Store>)
    requires AllWaitersOk(lq, q) && forall j :: 0 <= j < |ns| ==> ns[j].waiters == []
    ensures AllWaitersOk(lq, q + ns)
  {
    var z := q + ns;
    forall j | 0 <= j < |z| && !z[j].fetched ensures WaitersOk(lq, z[j]) {
      if j < |q| { assert z[j] == q[j] && WaitersOk(lq, q[j]); }
    }
  }

  lemma {:induction false} StoresSnoc(rob: seq<Instr>, ins: Instr)
    ensures StoresOf(rob + [ins]) == StoresOf(rob) + KeysOf(ins.id, ins.dstMem)
  {
    StoresConcat(rob, [ins]);
    assert [ins][1..] == [];
  }

  lemma {:induction false} SortedSnoc(x: seq<Instr>, y: seq<Instr>, ins: Instr)
    requires SortedIds(x + y) && forall i :: 0 <= i < |x + y| ==> (x + y)[i].id < ins.id
    ensures SortedIds(x + (y + [ins]))
  {
    assert x + (y + [ins]) == (x + y) + [ins];
  }

  lemma {:induction false} DispatchAccounting(s: Lsq, ins: Instr, l: LoadQueue, q: seq<Store>, d: nat)
    requires Owed(s.rob) == LqIds(s.lq) + UnfetchedIds(s.sq) && UnfetchedIds(q) == UnfetchedIds(s.sq)
    requires d <= |ins.srcMem| && LqIds(l) + Times(ins.id, d) == LqIds(s.lq) + Times(ins.id, |ins.srcMem|)
    ensures Owed(s.rob + [ins.(memDone := d)]) == LqIds(l) + (UnfetchedIds(q) + Times(ins.id, |ins.dstMem|))
  {
    var ins' := ins.(memDone := d);
    OwedSnoc(s.rob, ins');
    forall id: nat
      ensures (Owed(s.rob) + Times(ins.id, Remaining(ins')))[id] == (LqIds(l) + (UnfetchedIds(q) + Times(ins.id, |ins.dstMem|)))[id]
    {
      assert (LqIds(l) + Times(ins.id, d))[id] == (LqIds(s.lq) + Times(ins.id, |ins.srcMem|))[id];
    }
  }

  // A free slot for each load, and nothing in the program or the queues that is as young.
  predicate MayEnter(s: Lsq, retired: seq<Instr>, ins: Instr) {
    && ins.memDone == 0 && !ins.completed && |ins.srcMem| <= CountEmpty(s.lq)
    && (forall i :: 0 <= i < |retired + s.rob| ==> (retired + s.rob)[i].id < ins.id)
  }

  lemma {:induction false} DispatchLoads(s: Lsq, retired: seq<Instr>, written: seq<StoreKey>, ins: Instr)
    requires LsqInv(s, retired, written) && MayEnter(s, retired, ins)
    ensures var (l, q, d) := AddLoads(s.lq, s.sq, ins.id, ins.srcMem); LoadsAdded(s.lq, s.sq, ins.id, |ins.srcMem|, l, q, d)
  {
    hide AddLoads, SortedIds, StoresOf, Owed, LqIds, UnfetchedIds, LoadsAdded;
    OpenLsqInv(s, retired, written);
    forall j | 0 <= j < |s.sq| ensures s.sq[j].id < ins.id { QueuedHasOwner(s, retired, written, j); }
    AddLoadsInv(s.lq, s.sq, ins.id, ins.srcMem);
  }

  lemma {:induction false} DispatchSorted(s: Lsq, retired: seq<Instr>, written: seq<StoreKey>, ins: Instr)
    requires LsqInv(s, retired, written) && MayEnter(s, retired, ins)
    ensures SortedIds(retired + DispatchMemory(s, ins).rob)
  {
    hide AddLoads, StoresOf, Owed, Parking;
    OpenLsqInv(s, retired, written);
    var r := DispatchMemory(s, ins);
    SortedSnoc(retired, s.rob, r.rob[|s.rob|]);
    assert r.rob == s.rob + [r.rob[|s.rob|]];
  }

  lemma {:induction false} DispatchCounters(s: Lsq, retired: seq<Instr>, written: seq<StoreKey>, ins: Instr)
    requires LsqInv(s, retired, written) && MayEnter(s, retired, ins)
    ensures CountersOk(DispatchMemory(s, ins).rob)
  {
    hide AddLoads, SortedIds, StoresOf, Owed, Parking;
    OpenLsqInv(s, retired, written);
    DispatchLoads(s, retired, written, ins);
  }

  lemma {:induction false} DispatchParking(s: Lsq, retired: seq<Instr>, written: seq<StoreKey>, ins: Instr)
    requires LsqInv(s, retired, written) && MayEnter(s, retired, ins)
    ensures var r := DispatchMemory(s, ins); FetchedFirst(r.sq) && Parking(r.lq, r.sq)
  {
    hide AddLoads, NewStores, SortedIds, StoresOf, Owed, LqIds, Parking;
    OpenLsqInv(s, retired, written);
    DispatchLoads(s, retired, written, ins);
    var (l, q, d) := AddLoads(s.lq, s.sq, ins.id, ins.srcMem);
    AppendStores(l, q, ins.id, ins.dstMem);
  }

  // Operations owed, occupied slots and unexecuted stores grow by the same amounts.
  lemma {:induction false} DispatchOwed(s: Lsq, retired: seq<Instr>, written: seq<StoreKey>, ins: Instr)
    requires LsqInv(s, retired, written) && MayEnter(s, retired, ins)
    ensures var r := DispatchMemory(s, ins); Owed(r.rob) == LqIds(r.lq) + UnfetchedIds(r.sq)
  {
    hide AddLoads, NewStores, SortedIds, StoresOf, Owed, LqIds, UnfetchedIds, Parking, FetchedFirst, Times;
    OpenLsqInv(s, retired, written);
    DispatchLoads(s, retired, written, ins);
    var (l, q, d) := AddLoads(s.lq, s.sq, ins.id, ins.srcMem);
    SameButWaitersKeys(s.sq, q);
    NewStoresInv(ins.id, ins.dstMem);
    UnfetchedConcat(q, NewStores(ins.id, ins.dstMem));
    DispatchAccounting(s, ins, l, q, d);
  }

  lemma {:induction false} DispatchWritten(s: Lsq, retired: seq<Instr>, written: seq<StoreKey>, ins: Instr)
    requires LsqInv(s, retired, written)
    ensures var r := DispatchMemory(s, ins); written + Keys(r.sq) == StoresOf(retired) + StoresOf(r.rob)
  {
    hide AddLoads, NewStores, SortedIds, StoresOf, Owed, Parking, Keys;
    OpenLsqInv(s, retired, written);
    var (l, q, d) := AddLoads(s.lq, s.sq, ins.id, ins.srcMem);
    AddLoadsShape(s.lq, s.sq, ins.id, ins.srcMem);
    SameButWaitersKeys(s.sq, q);
    NewStoresInv(ins.id, ins.dstMem);
    KeysConcat(q, NewStores(ins.id, ins.dstMem));
    StoresSnoc(s.rob, ins.(memDone := ins.memDone + d));
    ConcatAssoc(written, Keys(q), KeysOf(ins.id, ins.dstMem));
    ConcatAssoc(StoresOf(retired), StoresOf(s.rob), KeysOf(ins.id, ins.dstMem));
  }

  lemma {:induction false} WrittenRetired(s: Lsq, retired: seq<Instr>, written: seq<StoreKey>)
    requires LsqInv(s, retired, written)
    ensures |written| <= |StoresOf(retired)|
  {
    OpenLsqInv(s, retired, written);
  }

  // With a free slot for each load, a dispatched instruction enters the queues
  // with all its operations accounted for.
  lemma {:induction false} DispatchLsqInv(s: Lsq, retired: seq<Instr>, written: seq<StoreKey>, ins: Instr)
    requires LsqInv(s, retired, written) && MayEnter(s, retired, ins)
    ensures LsqInv(DispatchMemory(s, ins), retired, written)
  {
    hide DispatchMemory, SortedIds, CountersOk, Owed, LqIds, UnfetchedIds, FetchedFirst, Parking, Keys, StoresOf;
    DispatchSorted(s, retired, written, ins);
    DispatchCounters(s, retired, written, ins);
    DispatchParking(s, retired, written, ins);
    DispatchOwed(s, retired, written, ins);
    DispatchWritten(s, retired, written, ins);
    WrittenRetired(s, retired, written);
  }

  // ------------------------------------------------ the reorder buffer's own steps

  // Scheduling, execution and completion do not touch the accounting.
  lemma {:induction false} RobFrame(s: Lsq, rob: seq<Instr>, retired: seq<Instr>, written: seq<StoreKey>)
    requires LsqInv(s, retired, written) && |rob| == |s.rob|
    requires forall i :: 0 <= i < |rob| ==> SameMem(s.rob[i], rob[i]) && rob[i].memDone == s.rob[i].memDone
    requires forall i :: 0 <= i < |rob| && rob[i].completed ==> rob[i].memDone == rob[i].NumMemOps()
    ensures LsqInv(s.(rob := rob), retired, written)
  {
    OpenLsqInv(s, retired, written);
    StoresSame(s.rob, rob);
    forall i, j | 0 <= i < j < |retired + rob| ensures (retired + rob)[i].id < (retired + rob)[j].id {
      assert (retired + s.rob)[i].id < (retired + s.rob)[j].id;
    }
  }

  // A retiring instruction has no operation left in either queue.
  lemma {:induction false} RetireLsqInv(s: Lsq, retired: seq<Instr>, written: seq<StoreKey>)
    requires LsqInv(s, retired, written) && s.rob != [] && s.rob[0].completed
    ensures LsqInv(s.(rob := s.rob[1..]), retired + [s.rob[0]], written)
  {
    OpenLsqInv(s, retired, written);
    var rest := s.rob[1..];
    assert retired + s.rob == (retired + [s.rob[0]]) + rest;
    StoresSnoc(retired, s.rob[0]);
    ConcatAssoc(StoresOf(retired), KeysOf(s.rob[0].id, s.rob[0].dstMem), StoresOf(rest));
    assert Times(s.rob[0].id, 0) == multiset{};
  }

  // For each instruction in the reorder buffer: completed operations plus
  // occupied load slots plus unexecuted stores make all of its operations.
  lemma {:induction false} Accounting(s: Lsq, retired: seq<Instr>, written: seq<StoreKey>, i: nat)
    requires LsqInv(s, retired, written) && i < |s.rob|
    ensures s.rob[i].memDone + LqIds(s.lq)[s.rob[i].id] + UnfetchedIds(s.sq)[s.rob[i].id] == s.rob[i].NumMemOps()
  {
    OpenLsqInv(s, retired, written);
    SortedTail(retired, s.rob);
    OwedAt(s.rob, i);
  }

  lemma {:induction false} OwedAt(rob: seq<Instr>, i: nat)
    requires SortedIds(rob) && i < |rob|
    ensures Owed(rob)[rob[i].id] == Remaining(rob[i])
  {
    if i > 0 {
      OwedAt(rob[1..], i - 1);
    } else if rob[0].id in Owed(rob[1..]) {
      OwedMember(rob[1..], rob[0].id);
    }
  }
}
