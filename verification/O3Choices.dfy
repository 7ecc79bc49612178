// Which instructions, loads and stores a step of the core takes: the oldest that
// are eligible, as many as the bandwidth allows, and no others.
module O3Choices {
  import opened Prelude
  import opened Pipeline
  import opened RegisterAllocation
  import opened ReorderBuffer
  import opened LoadStoreQueue
  import opened LoadStoreInvariant
  import opened FrontEnd
  import opened O3Core

  // How many of the first n satisfy p.
  function Rank(n: nat, p: nat -> bool): nat {
    if n == 0 then 0 else Rank(n - 1, p) + if p(n - 1) then 1 else 0
  }

  // Position k is among the first bw that satisfy p.
  predicate Among(p: nat -> bool, k: nat, bw: nat) {
    p(k) && Rank(k, p) < bw
  }

  // ---------------------------------------------------------------- completion

  function Finished(rob: seq<Instr>, now: int): nat -> bool {
    (k: nat) => k < |rob| && rob[k].executed && !rob[k].completed && rob[k].readyTime <= now
                && rob[k].memDone == |rob[k].srcMem| + |rob[k].dstMem|
  }

  lemma {:induction false} CompletesFrom(a: Alloc, rob: seq<Instr>, i: nat, bw: nat, now: int, k: nat)
    requires Shape(a) && i <= |rob| && ExecutedInFile(a, rob) && k < |rob|
    ensures CompleteFrom(a, rob, i, bw, now).1[k] ==
            if k >= i && Among(Finished(rob, now), k, Rank(i, Finished(rob, now)) + bw) then rob[k].(completed := true) else rob[k]
    decreases |rob| - i
  {
    hide Shape, CompleteDests;
    var p := Finished(rob, now);
    RankMono(p, i, k);
    if !(i == |rob| || bw == 0) {
      assert CanComplete(rob[i], now) <==> p(i);
      if CanComplete(rob[i], now) {
        var rob' := MarkComplete(rob, i);
        assert forall m :: 0 <= m < |rob| ==> rob'[m].dst == rob[m].dst;
        CompletesFrom(CompleteDests(a, rob[i].dst), rob', i + 1, bw - 1, now, k);
        RankAfter(p, Finished(rob', now), i, i);
        RankAfter(p, Finished(rob', now), i, k);
      } else {
        CompletesFrom(a, rob, i + 1, bw, now, k);
      }
    }
  }

  lemma {:induction false} RankMono(p: nat -> bool, i: nat, k: nat)
    ensures i <= k ==> Rank(i, p) <= Rank(k, p)
  {
    if i < k { RankMono(p, i, k - 1); }
  }

  // Ranks when position i stops being eligible.
  lemma {:induction false} RankAfter(p: nat -> bool, q: nat -> bool, i: nat, k: nat)
    requires p(i) && !q(i) && forall m: nat :: m != i ==> q(m) == p(m)
    ensures Rank(k, p) == Rank(k, q) + if i < k then 1 else 0
  {
    if k > 0 { RankAfter(p, q, i, k - 1); }
  }

  // complete_inflight_instruction marks the first EXEC_WIDTH executed entries that
  // are due and have no memory operation left.
  lemma {:induction false} CompletesOldest(s: Core, k: nat)
    requires Inv(s) && k < |s.rob|
    ensures Complete(s).rob[k] == if Among(Finished(s.rob, s.now), k, s.cfg.execWidth) then s.rob[k].(completed := true) else s.rob[k]
  {
    hide Inv, CompleteFrom;
    CompletedInFile(s);
    CompletesFrom(s.alloc, s.rob, 0, s.cfg.execWidth, s.now, k);
  }

  // ----------------------------------------------------------------- execution

  function Ready(a: Alloc, rob: seq<Instr>, now: int): nat -> bool {
    (k: nat) => k < |rob| && rob[k].scheduled && !rob[k].executed && rob[k].readyTime <= now
         && forall m :: 0 <= m < |rob[k].src| ==> 0 <= rob[k].src[m] < |a.file| && a.file[rob[k].src[m]].valid
  }

  lemma {:induction false} ExecutesFrom(a: Alloc, w: Window, i: nat, bw: nat, now: int, at: int, k: nat)
    requires i <= |w.rob| && k < |w.rob|
    ensures ExecuteFrom(a, w, i, bw, now, at).rob[k] ==
            if k >= i && Among(Ready(a, w.rob, now), k, Rank(i, Ready(a, w.rob, now)) + bw)
            then w.rob[k].(executed := true, readyTime := at) else w.rob[k]
    decreases |w.rob| - i
  {
    hide WakeLoads, WakeStores;
    var p := Ready(a, w.rob, now);
    RankMono(p, i, k);
    if !(i == |w.rob| || bw == 0) {
      assert CanExecute(a, w.rob[i], now) <==> p(i);
      if CanExecute(a, w.rob[i], now) {
        var t := ExecuteAt(w, i, at);
        ExecutesFrom(a, t, i + 1, bw - 1, now, at, k);
        RankAfter(p, Ready(a, t.rob, now), i, i);
        RankAfter(p, Ready(a, t.rob, now), i, k);
      } else {
        ExecutesFrom(a, w, i + 1, bw, now, at, k);
      }
    }
  }

  // execute_instruction takes the first EXEC_WIDTH renamed entries that are due
  // and whose sources are all valid; their results are ready a latency later.
  lemma {:induction false} ExecutesOldest(s: Core, k: nat)
    requires k < |s.rob|
    ensures ExecuteReady(s).rob[k] ==
            if Among(Ready(s.alloc, s.rob, s.now), k, s.cfg.execWidth)
            then s.rob[k].(executed := true, readyTime := s.now + if s.warmup then 0 else s.cfg.execLatency) else s.rob[k]
  {
    hide ExecuteFrom;
    ExecutesFrom(s.alloc, Window(s.rob, s.lq, s.sq), 0, s.cfg.execWidth, s.now, s.now + Latency(s, s.cfg.execLatency), k);
  }

  // ---------------------------------------------------------------- scheduling

  // Entries that count against the search bandwidth.
  function Unexecuted(rob: seq<Instr>): nat -> bool {
    (k: nat) => k < |rob| && !rob[k].executed
  }

  // Where a search from i on with some bandwidth stops: at the end, when the
  // bandwidth is used up, or at an entry that does not find enough registers.
  predicate StopsAt(a: Alloc, rob: seq<Instr>, i: nat, bw: nat, stop: nat)
    requires Shape(a) && forall k :: 0 <= k < |rob| ==> RegsInRange(rob[k])
  {
    && i <= stop <= |rob| && Rank(stop, Unexecuted(rob)) <= Rank(i, Unexecuted(rob)) + bw
    && (|| stop == |rob|
        || Rank(stop, Unexecuted(rob)) == Rank(i, Unexecuted(rob)) + bw
        || |a.free| < Need(a, rob[stop]))
  }

  // Between i and the stop entries that are due are renamed; no other entry changes.
  predicate Renamed(x: seq<Instr>, y: seq<Instr>, i: nat, stop: nat, now: int) {
    |y| == |x| && forall k :: 0 <= k < |x| ==>
      if i <= k < stop && !x[k].scheduled && x[k].readyTime <= now
      then y[k] == x[k].(src := y[k].src, dst := y[k].dst, scheduled := true) else y[k] == x[k]
  }

  lemma {:induction false} SchedulesFrom(a: Alloc, rob: seq<Instr>, i: nat, bw: nat, now: int) returns (stop: nat)
    requires Shape(a) && |a.file| <= ARCH_REGS && i <= |rob| && forall k :: 0 <= k < |rob| ==> RegsInRange(rob[k])
    ensures var r := ScheduleFrom(a, rob, i, bw, now);
            && Shape(r.0) && |r.1| == |rob| && (forall k :: 0 <= k < |rob| ==> RegsInRange(r.1[k]))
            && StopsAt(r.0, r.1, i, bw, stop) && Renamed(rob, r.1, i, stop, now)
    decreases |rob| - i
  {
    hide Shape, RegsInRange, Need, ScheduleStep;
    if i == |rob| || bw == 0 || |a.free| < Need(a, rob[i]) {
      stop := i;
    } else {
      var (a1, rob1) := ScheduleStep(a, rob, i, now);
      StepRenames(a, rob, i, now);
      stop := SchedulesFrom(a1, rob1, i + 1, if rob1[i].executed then bw else bw - 1, now);
      var r := ScheduleFrom(a, rob, i, bw, now);
      SameRank(rob1, r.1, i);
      SameRank(rob1, r.1, i + 1);
    }
  }

  lemma {:induction false} SameRank(x: seq<Instr>, y: seq<Instr>, n: nat)
    requires |x| == |y| && forall k :: 0 <= k < |x| ==> y[k].executed == x[k].executed
    ensures Rank(n, Unexecuted(x)) == Rank(n, Unexecuted(y))
  {
    if n > 0 { SameRank(x, y, n - 1); }
  }

  lemma {:induction false} StepRenames(a: Alloc, rob: seq<Instr>, i: nat, now: int)
    requires Shape(a) && i < |rob| && RegsInRange(rob[i]) && Need(a, rob[i]) <= |a.free|
    ensures Renamed(rob, ScheduleStep(a, rob, i, now).1, i, i + 1, now)
  {
    hide Shape, RegsInRange, Need;
  }

  // ------------------------------------------------------------ loads and stores

  function MayGo(lq: LoadQueue, now: int): nat -> bool {
    (k: nat) => k < |lq| && lq[k].Some? && lq[k].value.producer.None? && !lq[k].value.issued
         && lq[k].value.ready.Some? && lq[k].value.ready.value < now
  }

  lemma {:induction false} IssuesFrom(lq: LoadQueue, s: nat, bw: nat, room: nat, now: int, k: nat)
    requires s <= |lq| && k < |lq|
    ensures IssueLoads(lq, s, bw, room, now)[k] ==
            if k >= s && Among(MayGo(lq, now), k, Rank(s, MayGo(lq, now)) + Min(bw, room))
            then Some(lq[k].value.(issued := true)) else lq[k]
    decreases |lq| - s
  {
    var p := MayGo(lq, now);
    RankMono(p, s, k);
    if !(s == |lq| || bw == 0 || room == 0) {
      assert MayIssue(lq[s], now) <==> p(s);
      if MayIssue(lq[s], now) {
        var l := lq[s := Some(lq[s].value.(issued := true))];
        IssuesFrom(l, s + 1, bw - 1, room - 1, now, k);
        RankAfter(p, MayGo(l, now), s, s);
        RankAfter(p, MayGo(l, now), s, k);
      } else {
        IssuesFrom(lq, s + 1, bw, room, now, k);
      }
    }
  }

  // The first loads that are due and wait for no store are issued, as many as
  // LQ_WIDTH and the L1D allow.
  lemma {:induction false} IssuesFirst(s: Core, room: nat, k: nat)
    requires k < |s.lq|
    ensures IssueReady(s, room).lq[k] ==
            if Among(MayGo(s.lq, s.now), k, Min(s.cfg.lqWidth, room)) then Some(s.lq[k].value.(issued := true)) else s.lq[k]
  {
    hide IssueLoads;
    IssuesFrom(s.lq, 0, s.cfg.lqWidth, room, s.now, k);
  }

  lemma {:induction false} SpanIsDue(sq: seq<Store>, j: nat, bw: nat, now: int)
    requires j <= |sq|
    ensures var n := FetchSpan(sq, j, bw, now);
            && (forall k :: j <= k < j + n ==> !sq[k].fetched && sq[k].ready.Some? && sq[k].ready.value <= now)
            && (n < bw && j + n < |sq| ==> sq[j + n].fetched || sq[j + n].ready.None? || sq[j + n].ready.value > now)
    decreases |sq| - j
  {
    if !(j == |sq| || bw == 0 || sq[j].fetched || !Due(sq[j].ready, now)) { SpanIsDue(sq, j + 1, bw - 1, now); }
  }

  // Of the stores that have not executed the oldest do, while they are due and
  // SQ_WIDTH lasts.
  lemma {:induction false} StoresExecuteInOrder(s: Core, j: nat)
    requires j < |s.sq|
    ensures var r, first := ExecuteStores(s), FirstUnfetched(s.sq);
            && (r.sq[j].fetched && !s.sq[j].fetched ==>
                  first <= j < first + s.cfg.sqWidth && s.sq[j].ready.Some? && s.sq[j].ready.value <= s.now
                  && r.sq[j].ready == Some(s.now))
            && (first <= j < first + s.cfg.sqWidth && !r.sq[j].fetched ==>
                  exists k :: first <= k <= j && (s.sq[k].fetched || s.sq[k].ready.None? || s.sq[k].ready.value > s.now))
  {
    hide FetchSpan;
    SpanIsDue(s.sq, FirstUnfetched(s.sq), s.cfg.sqWidth, s.now);
    FetchedAt(LsqOf(s), FirstUnfetched(s.sq), FetchCount(s), s.now, j);
  }

  lemma {:induction false} FetchedAt(s: Lsq, j: nat, n: nat, now: int, k: nat)
    requires j + n <= |s.sq| && k < |s.sq|
    ensures FetchStores(s, j, n, now).sq[k] == if j <= k < j + n then s.sq[k].(fetched := true, ready := Some(now)) else s.sq[k]
    decreases n
  {
    hide FinishStore;
    if n > 0 { FetchedAt(FetchOne(s, j, now), j + 1, n - 1, now, k); }
  }

  // schedule_instruction renames the entries that are due up to where it stops.
  lemma {:induction false} SchedulesInOrder(s: Core) returns (stop: nat)
    requires Inv(s)
    ensures var r := ScheduleReady(s);
            && Shape(r.alloc) && |r.rob| == |s.rob| && (forall k :: 0 <= k < |s.rob| ==> RegsInRange(r.rob[k]))
            && StopsAt(r.alloc, r.rob, 0, s.cfg.schedulerSize, stop) && Renamed(s.rob, r.rob, 0, stop, s.now)
  {
    hide Inv, ScheduleFrom, StopsAt, Shape;
    CompletedInFile(s);
    stop := SchedulesFrom(s.alloc, s.rob, 0, s.cfg.schedulerSize, s.now);
  }

  // ----------------------------------------------------------------- dispatch

  // Instructions leave the dispatch buffer from the front, all of them due, until
  // the bandwidth is used up, the next one is not due, or some buffer is full.
  lemma {:induction false} DispatchesDue(s: Core, bw: nat) returns (n: nat)
    ensures var r := DispatchAll(s, bw);
            && n <= bw && n <= |s.fe.dispatch| && r.fe.dispatch == s.fe.dispatch[n..] && |r.rob| == |s.rob| + n
            && (forall k :: 0 <= k < n ==> s.fe.dispatch[k].readyTime <= s.now)
            && (|| n == bw || r.fe.dispatch == [] || r.fe.dispatch[0].readyTime > s.now || |r.rob| == s.cfg.robSize
                || CountEmpty(r.lq) < |r.fe.dispatch[0].srcMem| || |r.fe.dispatch[0].dstMem| + |r.sq| > s.cfg.sqSize)
    decreases bw
  {
    hide DispatchMemory, CountEmpty, Horizon;
    if bw == 0 || !CanDispatch(s) {
      n := 0;
    } else {
      DispatchOneMoves(s);
      var m := DispatchesDue(DispatchOne(s), bw - 1);
      n := m + 1;
      assert s.fe.dispatch[1..][m..] == s.fe.dispatch[n..];
    }
  }

  lemma {:induction false} DispatchOneMoves(s: Core)
    requires s.fe.dispatch != []
    ensures var r := DispatchOne(s);
            r.fe.dispatch == s.fe.dispatch[1..] && |r.rob| == |s.rob| + 1 && r.now == s.now && r.cfg == s.cfg
  {
  }

  // Of the responses of the L1D a cycle takes the first, as many as the bandwidth
  // allows; what comes behind them changes nothing.
  lemma {:induction false} ReturnsWithinBandwidth(s: Core, blocks: seq<nat>, more: seq<nat>)
    requires |blocks| == s.cfg.l1dBandwidth
    ensures LoadsReturned(s, blocks + more) == LoadsReturned(s, blocks)
  {
    assert TakeUpTo(blocks + more, |blocks|) == blocks;
  }

  // --------------------------------------------------------- retirement and stores

  // Completed entries retire from the head, until RETIRE_WIDTH is used up or the
  // head has not completed.
  lemma {:induction false} RetiresOldest(s: Core, bw: nat) returns (n: nat)
    requires RetireSafe(s.alloc, s.rob)
    ensures n <= bw && n <= |s.rob| && (forall k :: 0 <= k < n ==> s.rob[k].completed)
    ensures n == bw || n == |s.rob| || !s.rob[n].completed
    ensures var r := RetireAll(s, bw); r.rob == s.rob[n..] && r.retired == s.retired + s.rob[..n]
  {
    hide RetireAll, RetireEntries;
    n := 0;
    while n < bw && n < |s.rob| && s.rob[n].completed
      invariant n <= bw && n <= |s.rob| && forall k :: 0 <= k < n ==> s.rob[k].completed
    {
      n := n + 1;
    }
    RetireAllSpan(s, bw, n);
  }

  // Stores leave for the L1D from the front, once their instruction is no longer in
  // flight and they are due, while bandwidth and room last.
  lemma {:induction false} StoresLeaveInOrder(s: Core, bw: nat, room: nat) returns (n: nat)
    ensures var left := (k: nat) => k < |s.sq| && (s.rob == [] || s.sq[k].id < s.rob[0].id)
                                    && s.sq[k].ready.Some? && s.sq[k].ready.value <= s.now;
            && n <= bw && n <= room && n <= |s.sq| && (forall k :: 0 <= k < n ==> left(k))
            && (n == bw || n == room || n == |s.sq| || !left(n))
    ensures CompleteStoresAll(s, bw, room).sq == s.sq[n..]
  {
    n := 0;
    while n < bw && n < room && n < |s.sq| && MayComplete(s.sq[n], s.rob, s.now)
      invariant n <= bw && n <= room && n <= |s.sq| && forall k :: 0 <= k < n ==> MayComplete(s.sq[k], s.rob, s.now)
    {
      n := n + 1;
    }
    CompleteStoresSpan(s, bw, room, n);
  }

  // ------------------------------------------------------------------- front end

  // What a loop over the two buffers has taken so far: only what is due, and no more
  // than the decoders can take from the buffer that needs them.
  predicate Took(x: seq<Instr>, y: seq<Instr>, c: Cursor, now: int, decoders: nat) {
    && c.dib <= |x| && c.dec <= |y| && c.dec + c.decoders == decoders
    && (forall k :: 0 <= k < c.dib ==> x[k].readyTime <= now)
    && (forall k :: 0 <= k < c.dec ==> y[k].readyTime <= now)
  }

  // Why it stopped: the oldest that is left is not due or finds no decoder, or
  // nothing is left, or no slot.
  predicate Stopped(x: seq<Instr>, y: seq<Instr>, c: Cursor, now: int)
    requires c.dib <= |x| && c.dec <= |y|
  {
    || c.slots == 0
    || (c.dib == |x| && c.dec == |y|)
    || (c.dib < |x| && (c.dec == |y| || x[c.dib].id < y[c.dec].id) && x[c.dib].readyTime > now)
    || (c.dec < |y| && (c.dib == |x| || y[c.dec].id < x[c.dib].id) && (y[c.dec].readyTime > now || c.decoders == 0))
  }

  lemma {:induction false} BothTook(x: seq<Instr>, y: seq<Instr>, c: Cursor, now: int, decoders: nat)
    requires Apart(x, y) && Took(x, y, c, now, decoders)
    ensures Took(x, y, TakeBoth(x, y, c, now), now, decoders) && !TakesFirst(x, y, TakeBoth(x, y, c, now), now)
    ensures var r := TakeBoth(x, y, c, now); r.dib + r.dec + r.slots == c.dib + c.dec + c.slots
    decreases c.slots
  {
    if TakesFirst(x, y, c, now) {
      assert x[c.dib].id != y[c.dec].id;
      if x[c.dib].id < y[c.dec].id {
        BothTook(x, y, c.(dib := c.dib + 1, slots := c.slots - 1), now, decoders);
      } else {
        BothTook(x, y, c.(dec := c.dec + 1, slots := c.slots - 1, decoders := c.decoders - 1), now, decoders);
      }
    }
  }

  lemma {:induction false} DibTook(x: seq<Instr>, y: seq<Instr>, c: Cursor, now: int, decoders: nat)
    requires Took(x, y, c, now, decoders)
    ensures var r := TakeDib(x, y, c, now);
            && Took(x, y, r, now, decoders) && !TakesDib(x, y, r, now) && r.dec == c.dec && r.decoders == c.decoders
            && r.dib + r.dec + r.slots == c.dib + c.dec + c.slots
            && (r != c ==> TakesDib(x, y, c, now))
    decreases c.slots
  {
    if TakesDib(x, y, c, now) { DibTook(x, y, c.(dib := c.dib + 1, slots := c.slots - 1), now, decoders); }
  }

  lemma {:induction false} DecodeTook(x: seq<Instr>, y: seq<Instr>, c: Cursor, now: int, decoders: nat)
    requires Took(x, y, c, now, decoders)
    ensures var r := TakeDecode(x, y, c, now);
            && Took(x, y, r, now, decoders) && !TakesDecode(x, y, r, now) && r.dib == c.dib
            && r.dib + r.dec + r.slots == c.dib + c.dec + c.slots
            && (r != c ==> TakesDecode(x, y, c, now))
    decreases c.slots
  {
    if TakesDecode(x, y, c, now) {
      DecodeTook(x, y, c.(dec := c.dec + 1, slots := c.slots - 1, decoders := c.decoders - 1), now, decoders);
    }
  }

  // Decoding takes from the two buffers what is due, oldest first, and stops only
  // for want of slots or decoders or because the oldest is not due.
  lemma {:induction false} DecodesDue(b: Buffers, slots: nat, decoders: nat, now: int)
    requires SortedIds(Merge(b.dibHit, b.decode))
    ensures var c := DecodeCursor(b, slots, decoders, now);
            && Took(b.dibHit, b.decode, c, now, decoders) && Stopped(b.dibHit, b.decode, c, now)
            && c.dib + c.dec + c.slots == slots
  {
    var x, y := b.dibHit, b.decode;
    MergeSortedParts(x, y);
    var c0 := Cursor(0, 0, slots, decoders);
    BothTook(x, y, c0, now, decoders);
    var c1 := TakeBoth(x, y, c0, now);
    DibTook(x, y, c1, now, decoders);
    var c2 := TakeDib(x, y, c1, now);
    DecodeTook(x, y, c2, now, decoders);
    var c3 := TakeDecode(x, y, c2, now);
    assert c2.dib < |x| && c2.dec < |y| ==> x[c2.dib].id != y[c2.dec].id;
    assert c3.dib < |x| && c3.dec < |y| ==> x[c3.dib].id != y[c3.dec].id;
    StopsOnce(x, y, c1, c2, c3, now);
  }

  // After the first loop the others have nothing to do but for one buffer, or for
  // want of decoders.
  lemma {:induction false} StopsOnce(x: seq<Instr>, y: seq<Instr>, c1: Cursor, c2: Cursor, c3: Cursor, now: int)
    requires c1.dib <= |x| && c1.dec <= |y| && c2.dib <= |x| && c2.dec <= |y| && c3.dib <= |x| && c3.dec <= |y|
    requires SortedIds(x) && SortedIds(y) && Apart(x, y)
    requires !TakesFirst(x, y, c1, now) && !TakesDib(x, y, c2, now) && !TakesDecode(x, y, c3, now)
    requires c2.dec == c1.dec && c2.decoders == c1.decoders && c3.dib == c2.dib
    requires c2 != c1 ==> TakesDib(x, y, c1, now)
    requires c3 != c2 ==> TakesDecode(x, y, c2, now)
    requires c2.dib + c2.slots == c1.dib + c1.slots
    ensures Stopped(x, y, c3, now)
  {
    assert c3.dib < |x| && c3.dec < |y| ==> x[c3.dib].id != y[c3.dec].id;
    assert c2.dib < |x| && c2.dec < |y| ==> x[c2.dib].id != y[c2.dec].id;
    assert c1.dib < |x| && c1.dec < |y| ==> x[c1.dib].id != y[c1.dec].id;
  }

  // The slots are what DIB_INORDER_WIDTH and the dispatch buffer allow; what was
  // decoded may be dispatched after the dispatch latency.
  lemma {:induction false} CoreDecodesDue(s: Core) returns (c: Cursor)
    requires Inv(s)
    ensures c.dib <= |s.fe.dibHit| && c.dec <= |s.fe.decode|
    ensures Took(s.fe.dibHit, s.fe.decode, c, s.now, s.cfg.decodeWidth) && Stopped(s.fe.dibHit, s.fe.decode, c, s.now)
    ensures c.dib + c.dec + c.slots == Min(s.cfg.dibInorderWidth, Max(0, s.cfg.dispatchSize - |s.fe.dispatch|))
    ensures var r := Decoded(s);
            && r.dibHit == s.fe.dibHit[c.dib..] && r.decode == s.fe.decode[c.dec..] && r.ifetch == s.fe.ifetch
            && |r.dispatch| == |s.fe.dispatch| + c.dib + c.dec && r.dispatch[..|s.fe.dispatch|] == s.fe.dispatch
            && forall k :: |s.fe.dispatch| <= k < |r.dispatch| ==>
                 r.dispatch[k].readyTime == s.now + if s.warmup then 0 else s.cfg.dispatchLatency
  {
    hide Took, Stopped, Merge, Order;
    c := DecodeCursor(s.fe, DecodeSlots(s), s.cfg.decodeWidth, s.now);
    OpenFlow(s);
    OrderSorted(s);
    OrderSplits(s.fe);
    DecodesDue(s.fe, DecodeSlots(s), s.cfg.decodeWidth, s.now);
    var at := s.now + Latency(s, s.cfg.dispatchLatency);
    MergeReady(SetReady(s.fe.dibHit[..c.dib], at), SetReady(s.fe.decode[..c.dec], at), at);
  }

  lemma {:induction false} MergeReady(x: seq<Instr>, y: seq<Instr>, at: int)
    requires (forall i :: 0 <= i < |x| ==> x[i].readyTime == at) && forall i :: 0 <= i < |y| ==> y[i].readyTime == at
    ensures forall i :: 0 <= i < |Merge(x, y)| ==> Merge(x, y)[i].readyTime == at
  {
    if x != [] && y != [] {
      if y[0].id < x[0].id { MergeReady(x, y[1..], at); } else { MergeReady(x[1..], y, at); }
    }
  }

  // The instructions in front that are fetched and due leave the fetch buffer, as
  // many as FETCH_WIDTH and both buffers have room for: the decoded ones to the
  // buffer of DIB hits, the others to the decoders, each with its latency.
  lemma {:induction false} PromotesFetched(s: Core) returns (n: nat)
    ensures var gone := (k: nat) => k < |s.fe.ifetch| && s.fe.ifetch[k].fetchCompleted && s.fe.ifetch[k].readyTime <= s.now;
            var most := Min(s.cfg.fetchWidth, Min(s.cfg.dibHitSize - |s.fe.dibHit|, s.cfg.decodeSize - |s.fe.decode|));
            && n <= |s.fe.ifetch| && n <= Max(0, most) && (forall k :: 0 <= k < n ==> gone(k))
            && (n == Max(0, most) || n == |s.fe.ifetch| || !gone(n))
    ensures var r := Promoted(s);
            && r.ifetch == s.fe.ifetch[n..] && r.dispatch == s.fe.dispatch && |r.dibHit| + |r.decode| == |s.fe.dibHit| + |s.fe.decode| + n
            && |r.dibHit| >= |s.fe.dibHit| && r.dibHit[..|s.fe.dibHit|] == s.fe.dibHit
            && |r.decode| >= |s.fe.decode| && r.decode[..|s.fe.decode|] == s.fe.decode
            && (forall k :: |s.fe.dibHit| <= k < |r.dibHit| ==>
                  r.dibHit[k].decoded && r.dibHit[k].readyTime == s.now + s.cfg.dibHitLatency)
            && (forall k :: |s.fe.decode| <= k < |r.decode| ==>
                  !r.decode[k].decoded && r.decode[k].readyTime == s.now + if s.warmup then 0 else s.cfg.decodeLatency)
  {
    hide FetchedSpan, Select;
    n := PromoteCount(s);
    var most := Min(s.cfg.fetchWidth, Min(Max(0, s.cfg.dibHitSize - |s.fe.dibHit|), Max(0, s.cfg.decodeSize - |s.fe.decode|)));
    SpanEnds(s.fe.ifetch, most, s.now);
    var w, dibAt, decodeAt := s.fe.ifetch[..n], s.now + s.cfg.dibHitLatency, s.now + Latency(s, s.cfg.decodeLatency);
    SelectSizes(w, dibAt, decodeAt);
    SelectIs(w, true, dibAt);
    SelectIs(w, false, decodeAt);
    var r := Promoted(s);
    assert r.dibHit == s.fe.dibHit + Select(w, true, dibAt) && r.decode == s.fe.decode + Select(w, false, decodeAt);
    forall k | |s.fe.dibHit| <= k < |r.dibHit| ensures r.dibHit[k].decoded && r.dibHit[k].readyTime == dibAt {
      assert r.dibHit[k] in Select(w, true, dibAt);
    }
    forall k | |s.fe.decode| <= k < |r.decode| ensures !r.decode[k].decoded && r.decode[k].readyTime == decodeAt {
      assert r.decode[k] in Select(w, false, decodeAt);
    }
  }

  lemma {:induction false} SpanEnds(ifetch: seq<Instr>, bw: nat, now: int)
    ensures var n := FetchedSpan(ifetch, bw, now);
            n == bw || n == |ifetch| || !ifetch[n].fetchCompleted || ifetch[n].readyTime > now
  {
    if ifetch != [] && bw > 0 { SpanEnds(ifetch[1..], bw - 1, now); }
  }

  lemma {:induction false} SelectIs(w: seq<Instr>, decoded: bool, at: int)
    ensures forall x :: x in Select(w, decoded, at) ==> x.decoded == decoded && x.readyTime == at
  {
    if w != [] { SelectIs(w[..|w| - 1], decoded, at); }
  }

  // A DIB hit makes an instruction fetched, decoded and due at once; a response of
  // the L1I makes it fetched; nothing else changes in the fetch buffer.
  lemma {:induction false} MarksFetched(ifetch: seq<Instr>, dibHits: set<nat>, returned: set<nat>, now: int, k: nat)
    requires k < |ifetch|
    ensures var x, r := ifetch[k], MarkFetched(ifetch, dibHits, returned, now)[k];
            && r == x.(fetchCompleted := r.fetchCompleted, decoded := r.decoded, readyTime := r.readyTime)
            && (r.fetchCompleted <==> x.fetchCompleted || x.id in dibHits || x.id in returned)
            && (r.decoded <==> x.decoded || x.id in dibHits)
            && r.readyTime == if x.id in dibHits then now else x.readyTime
  {
    if k < |ifetch| - 1 { MarksFetched(ifetch[..|ifetch| - 1], dibHits, returned, now, k); }
  }

  // Trace instructions enter in order, as many as FETCH_WIDTH and the fetch buffer
  // allow; they are due at once and not fetched yet, and name no registers in warmup.
  lemma {:induction false} EntersInOrder(s: Core, fetched: seq<TraceInstr>, bw: nat, k: nat)
    ensures var r := InitializeAll(s, fetched, bw);
            var n: nat := Min(|fetched|, Min(bw, Max(0, s.cfg.ifetchSize - |s.fe.ifetch|)));
            && |r.fe.ifetch| == |s.fe.ifetch| + n && r.fe.ifetch[..|s.fe.ifetch|] == s.fe.ifetch
            && (k < n ==>
                  var x := r.fe.ifetch[|s.fe.ifetch| + k];
                  && x.readyTime == s.now && !x.fetchCompleted && !x.decoded
                  && x.srcMem == fetched[k].srcMem && x.dstMem == fetched[k].dstMem
                  && x.src == (if s.warmup then [] else fetched[k].src) && x.dst == (if s.warmup then [] else fetched[k].dst))
    decreases bw
  {
    if !(fetched == [] || bw == 0 || |s.fe.ifetch| >= s.cfg.ifetchSize) {
      var t := EnterOne(s, fetched[0]);
      if k > 0 { EntersInOrder(t, fetched[1..], bw - 1, k - 1); } else { EntersInOrder(t, fetched[1..], bw - 1, 0); }
      var r := InitializeAll(s, fetched, bw);
      assert r.fe.ifetch[..|s.fe.ifetch|] == r.fe.ifetch[..|t.fe.ifetch|][..|s.fe.ifetch|];
      assert r.fe.ifetch[|s.fe.ifetch|] == r.fe.ifetch[..|t.fe.ifetch|][|s.fe.ifetch|];
    }
  }
}
