// What one cycle of a DRAM channel does, and only does: who is answered, which
// writes are done, which rows are open, when the mode changes and when refreshes
// fall due.
module DramCycles {
  import opened Prelude
  import opened Bits
  import opened DramMapping
  import opened DramChannel
  import opened SetUnion
  import opened DramInvariant
  import opened DramRuns

  // ------------------------------------------------------- only what was asked

  // A read of the block is queued for this return queue.
  predicate Asked(rq: Slots, block: nat, to: nat) {
    exists i :: 0 <= i < |rq| && Collides(rq[i], block) && to in rq[i].value.rets
  }

  lemma {:induction false} ReadTurnAsks(wq: Slots, r: Reads, k: nat, block: nat, to: nat)
    requires k < |r.rq| && Asked(ReadTurn(wq, r, k).rq, block, to)
    ensures Asked(r.rq, block, to)
  {
    var r' := ReadTurn(wq, r, k);
    var i :| 0 <= i < |r'.rq| && Collides(r'.rq[i], block) && to in r'.rq[i].value.rets;
    if to in r.rq[i].value.rets {
      assert Collides(r.rq[i], block);
    } else {
      UnionMembers(r.rq[i].value.rets, r.rq[k].value.rets, to);
      assert Collides(r.rq[k], block) && to in r.rq[k].value.rets;
    }
  }

  lemma {:induction false} CheckReadsAsk(wq: Slots, r: Reads, k: nat, block: nat, to: nat)
    requires k <= |r.rq| && Asked(CheckReads(wq, r, k).rq, block, to)
    ensures Asked(r.rq, block, to)
    decreases |r.rq| - k
  {
    if k < |r.rq| {
      CheckReadsAsk(wq, ReadTurn(wq, r, k), k + 1, block, to);
      ReadTurnAsks(wq, r, k, block, to);
    }
  }

  // What the collision check answers was asked for, and a write of the block is queued.
  lemma {:induction false} CheckReadsAnswer(wq: Slots, r: Reads, k: nat, n: nat)
    requires k <= |r.rq| && |r.out| <= n < |CheckReads(wq, r, k).out|
    ensures var x := CheckReads(wq, r, k).out[n]; Holding(wq, x.block) && Asked(r.rq, x.block, x.to)
    decreases |r.rq| - k
  {
    var t := ReadTurn(wq, r, k);
    var x := CheckReads(wq, r, k).out[n];
    if n < |t.out| {
      CheckReadsOut(wq, t, k + 1);
      var y := r.rq[k].value;
      var f := FirstMatch(wq, 0, |wq|, y.place.block);
      assert x == t.out[n] && x == Respond(y, |y.rets|)[n - |r.out|];
      assert Collides(wq[f], x.block) && Collides(r.rq[k], x.block);
    } else {
      CheckReadsAnswer(wq, t, k + 1, n);
      ReadTurnAsks(wq, r, k, x.block, x.to);
    }
  }

  // The bank on the data bus is due, and its packet is of this queue and block.
  predicate OnBus(c: Chan, write: bool, block: nat) {
    && c.active.Some? && c.active.value < |c.banks| && c.banks[c.active.value].ready <= c.now
    && (var p := c.banks[c.active.value].pkt;
        p.write == write && p.index < |Queue(c, write)| && Collides(Queue(c, write)[p.index], block))
  }

  // Up to the bus only the queues change, and each packet stays in its slot.
  lemma {:induction false} ChecksKeepBus(c: State, write: bool, block: nat)
    requires !c.warmup && OnBus(CheckCollisions(c), write, block)
    ensures OnBus(c, write, block)
  {
    CollisionsLinked(c);
  }

  // Outside warmup a response is pushed only for a queued read, whose block has a
  // queued write or has come over the data bus.
  lemma {:induction false} ResponsesJustified(c: State, n: nat)
    requires !c.warmup && |c.out| <= n < |Operate(c).out|
    ensures var x := Operate(c).out[n];
            (Asked(c.rq, x.block, x.to) && (Holding(c.wq, x.block) || OnBus(c, false, x.block))) || OnBus(c, true, x.block)
  {
    hide Inv, CheckWrites, CheckReads, SwapWriteMode, ScheduleRefresh, PopulateBus, ServicePacket, MinSlot, MinBank;
    var t := CollisionStep(DrainStep(c));
    var u := FinishStep(t);
    LaterOut(c);
    var x := u.out[n];
    if n < |t.out| {
      CheckReadsAnswer(CheckWrites(c.wq, 0), Reads(c.rq, c.out), 0, n);
      CheckWritesHolds(c.wq, 0, t.out[n].block);
    } else {
      var p := t.banks[t.active.value].pkt;
      var y := SlotAt(t, p).value;
      assert x == Respond(y, |y.rets|)[n - |t.out|];
      assert OnBus(t, p.write, x.block);
      ChecksKeepBus(c, p.write, x.block);
      if !p.write {
        assert Collides(t.rq[p.index], x.block) && x.to in t.rq[p.index].value.rets;
        CheckReadsAsk(CheckWrites(c.wq, 0), Reads(c.rq, c.out), 0, x.block, x.to);
      }
    }
  }

  // Behind the bus nothing is answered and no write is done.
  lemma {:induction false} LaterOut(c: State)
    ensures var u := FinishStep(CollisionStep(DrainStep(c))); Operate(c).out == u.out && Operate(c).done == u.done
  {
    hide Inv, CheckWrites, CheckReads, FinishBus, Drain, RefreshBanks, MinSlot, MinBank, MustSwap;
    var u := FinishStep(CollisionStep(DrainStep(c)));
    LinkedState(u);
    SwapLinked(u);
    var v := SwapStep(u);
    var w := PopulateStep(RefreshStep(v));
  }

  // Outside warmup at most one write is done in a cycle: the one on the bus.
  lemma {:induction false} DoneOnBus(c: State)
    requires !c.warmup
    ensures Operate(c).done == c.done || exists block :: OnBus(c, true, block) && Operate(c).done == c.done + [block]
  {
    hide Inv, CheckWrites, CheckReads, SwapWriteMode;
    LaterOut(c);
    var t := CollisionStep(DrainStep(c));
    var u := FinishStep(t);
    if u.done != c.done {
      var p := t.banks[t.active.value].pkt;
      var block := SlotAt(t, p).value.place.block;
      assert OnBus(t, true, block);
      ChecksKeepBus(c, true, block);
      assert OnBus(c, true, block) && u.done == c.done + [block];
    }
  }

  // ----------------------------------------------------------------- open rows

  // A bank that serves a packet has the row of its address open.
  predicate RowOpen(c: Chan, b: nat)
    requires b < |c.banks|
  {
    var k := c.banks[b];
    k.valid ==>
      && k.pkt.index < |Queue(c, k.pkt.write)| && SlotAt(c, k.pkt).Some?
      && k.openRow == Some(SlotAt(c, k.pkt).value.place.row)
  }

  predicate RowsOpen(c: Chan) {
    forall b :: 0 <= b < |c.banks| ==> RowOpen(c, b)
  }

  // Banks that are still valid keep their packet and their row.
  predicate BanksKept(c: Chan, r: Chan) {
    |r.banks| == |c.banks| && forall b :: 0 <= b < |c.banks| && r.banks[b].valid ==>
      c.banks[b].valid && r.banks[b].pkt == c.banks[b].pkt && r.banks[b].openRow == c.banks[b].openRow
  }

  lemma {:induction false} KeptRows(c: Chan, r: Chan)
    requires RowsOpen(c) && BanksKept(c, r) && Kept(c.wq, r.wq) && Kept(c.rq, r.rq) && Linked(r)
    ensures RowsOpen(r)
  {
    forall b | 0 <= b < |r.banks| ensures RowOpen(r, b) {
      assert BankOk(r, b) && RowOpen(c, b);
    }
  }

  lemma {:induction false} ReleaseBanksKept(c: Chan, k: nat)
    requires k <= |c.banks| && PacketsOccupied(c)
    ensures BanksKept(c, ReleaseFrom(c, k))
    decreases |c.banks| - k
  {
    if k < |c.banks| {
      ReleaseBanksKept(ReleaseTurn(c, k), k + 1);
    }
  }

  lemma {:induction false} ServiceRows(c: State, m: nat)
    requires m < |Queue(c, c.writeMode)| && BanksExist(Queue(c, c.writeMode), c.banks) && RowsOpen(c)
    requires Linked(ServicePacket(c, m))
    ensures RowsOpen(ServicePacket(c, m))
  {
    hide Inv, Linked;
    var r := ServicePacket(c, m);
    forall b | 0 <= b < |r.banks| ensures RowOpen(r, b) { assert RowOpen(c, b); }
  }

  lemma {:induction false} FirstHalfRows(c: State)
    requires RowsOpen(c)
    ensures RowsOpen(FirstHalf(c))
  {
    hide Inv, CheckWrites, CheckReads, Linked, MustSwap, RowsOpen, ReleaseFrom;
    var d := DrainStep(c);
    LinkedState(d);
    KeptRows(c, d);
    var t := CollisionStep(d);
    LinkedState(t);
    KeptRows(d, t);
    var u := FinishStep(t);
    LinkedState(u);
    KeptRows(t, u);
    SwapLinked(u);
    ReleaseBanksKept(u, 0);
    var v := SwapStep(u);
    LinkedState(v);
    KeptRows(u, v);
  }

  lemma {:induction false} LinkedState(c: State)
    ensures Linked(c)
  {
  }

  lemma {:induction false} SecondHalfRows(c: Checked)
    requires RowsOpen(c)
    ensures RowsOpen(SecondHalf(c))
  {
    hide Inspected, RowsOpen, SchedulePacket, ServicePacket, MinBank, RefreshBanks, Linked, Inv;
    var r := RefreshStep(c);
    CheckedLinked(c);
    CheckedLinked(r);
    RefreshKept(c);
    KeptRows(c, r);
    var p := PopulateStep(r);
    CheckedLinked(p);
    KeptRows(r, p);
    LinkedOccupied(p);
    CheckedState(p, SchedulePacket(p));
    ServicePacketLinked(p, SchedulePacket(p));
    ServiceRows(p, SchedulePacket(p));
  }

  lemma {:induction false} CheckedLinked(c: Checked)
    ensures Linked(c)
  {
  }

  lemma {:induction false} CheckedState(c: Checked, m: nat)
    requires m < |Queue(c, c.writeMode)|
    ensures Inv(c) && (Queue(c, c.writeMode)[m].Some? ==> Queue(c, c.writeMode)[m].value.checked)
  {
  }

  lemma {:induction false} RefreshKept(c: Chan)
    requires Linked(c)
    ensures BanksKept(c, ScheduleRefresh(c))
  {
    forall b | 0 <= b < |c.banks| ensures c.banks[b].valid ==> !c.banks[b].underRefresh { assert BankOk(c, b); }
  }

  lemma {:induction false} StepRows(g: Geometry, c: State, e: Event)
    requires FitsGeometry(g, c) && Sane(e) && RowsOpen(c)
    ensures RowsOpen(Step(g, c, e))
  {
    hide Inv, FirstHalf, SecondHalf, RowsOpen, FirstFree;
    if e.Cycle? {
      var t := TickStep(c, e.dt, e.endWarmup);
      SameRows(c, t);
      FirstHalfRows(t);
      SecondHalfRows(FirstHalf(t));
    } else {
      LinkedState(Step(g, c, e));
      ArrivalRows(g, c, e);
    }
  }

  lemma {:induction false} SameRows(c: Chan, r: Chan)
    requires RowsOpen(c) && r.banks == c.banks && r.wq == c.wq && r.rq == c.rq
    ensures RowsOpen(r)
  {
    forall b | 0 <= b < |r.banks| ensures RowOpen(r, b) { assert RowOpen(c, b); }
  }

  // An arrival takes a free slot, which no valid bank serves.
  lemma {:induction false} ArrivalRows(g: Geometry, c: State, e: Event)
    requires FitsGeometry(g, c) && Sane(e) && RowsOpen(c) && !e.Cycle?
    ensures RowsOpen(Step(g, c, e))
  {
    hide Inv, Linked;
    var r := Step(g, c, e);
    forall b | 0 <= b < |r.banks| ensures RowOpen(r, b) { assert RowOpen(c, b); }
  }

  lemma {:induction false} RunRows(g: Geometry, c: State, es: seq<Event>)
    requires FitsGeometry(g, c) && RowsOpen(c) && forall i :: 0 <= i < |es| ==> Sane(es[i])
    ensures RowsOpen(Run(g, c, es))
  {
    hide Step, Inv, RowsOpen, BankCount;
    if es != [] {
      RunRows(g, c, es[..|es| - 1]);
      StepRows(g, Run(g, c, es[..|es| - 1]), es[|es| - 1]);
    }
  }

  // In every reachable state a bank that serves a packet has the row of the
  // packet's address open.
  lemma {:induction false} ServedRowIsOpen(g: Geometry, t: Timing, rqSize: nat, wqSize: nat, es: seq<Event>, b: nat)
    requires g.HasBanks() && rqSize > 0 && wqSize > 0 && forall i :: 0 <= i < |es| ==> Sane(es[i])
    requires var c := Reached(g, t, rqSize, wqSize, es); b < |c.banks| && c.banks[b].valid
    ensures var c := Reached(g, t, rqSize, wqSize, es);
            var p := c.banks[b].pkt;
            && p.index < |Queue(c, p.write)| && Queue(c, p.write)[p.index].Some?
            && c.banks[b].openRow == Some(Raw(g, Queue(c, p.write)[p.index].value.addr, ROW).value)
  {
    CountPositive(g);
    StartInv(t, BankCount(g), Pow2(g.rank) * Pow2(g.bankgroup), rqSize, wqSize);
    RunRows(g, Start(t, BankCount(g), Pow2(g.rank) * Pow2(g.bankgroup), rqSize, wqSize), es);
    var c := Reached(g, t, rqSize, wqSize, es);
    assert RowOpen(c, b);
    ReachedInPlace(g, t, rqSize, wqSize, es);
  }

  // The packet scheduled is serviced exactly when it is due and its bank is idle
  // and not refreshing. A row that is open costs no more than the column access, a
  // closed bank a row activation as well, another open row a precharge on top.
  lemma {:induction false} ServiceDelay(c: Chan, m: nat)
    requires m < |Queue(c, c.writeMode)| && BanksExist(Queue(c, c.writeMode), c.banks) && Queue(c, c.writeMode)[m].Some?
    requires Queue(c, c.writeMode)[m].value.scheduled ==> Queue(c, c.writeMode)[m].value.ready.None?
    ensures var r, x := ServicePacket(c, m), Queue(c, c.writeMode)[m].value;
            var b := x.place.bank;
            var goes := x.ready.Some? && x.ready.value <= c.now && !c.banks[b].valid && !c.banks[b].underRefresh;
            && (!goes ==> r == c)
            && (goes ==>
                  && r.banks[b].valid && r.banks[b].pkt == Pkt(c.writeMode, m)
                  && Queue(r, c.writeMode)[m].value.scheduled && Queue(r, c.writeMode)[m].value.ready.None?
                  && (r.banks[b].rowHit <==> c.banks[b].openRow == Some(x.place.row))
                  && (c.banks[b].openRow == Some(x.place.row) ==> r.banks[b].ready == c.now + c.t.tCAS)
                  && (c.banks[b].openRow.None? ==> r.banks[b].ready == c.now + c.t.tCAS + c.t.tRCD)
                  && (c.banks[b].openRow.Some? && c.banks[b].openRow.value != x.place.row ==>
                        r.banks[b].ready == c.now + c.t.tCAS + c.t.tRCD + c.t.tRP))
  {
  }

  // ------------------------------------------------------------------ the bus

  // When the bus is free it takes a due bank with the earliest ready time, if any
  // is due; the data follow once the bank group has cooled down.
  lemma {:induction false} BusTakesFirst(c: Chan)
    requires Linked(c)
    ensures PacketsOccupied(c)
    ensures forall b :: 0 <= b < |c.banks| && c.banks[b].valid ==> SlotAt(c, c.banks[b].pkt).value.place.group < |c.groupReady|
    ensures var r := PopulateBus(c);
            var free := c.active.None? && c.busAvailable <= c.now;
            var due := exists b :: 0 <= b < |c.banks| && c.banks[b].valid && c.banks[b].ready <= c.now;
            && (!(free && due) ==> r == c)
            && (free && due ==>
                  && r.active.Some? && r.active.value < |c.banks|
                  && var b := r.active.value;
                     var group := SlotAt(c, c.banks[b].pkt).value.place.group;
                     && c.banks[b].valid
                     && (forall k :: 0 <= k < |c.banks| && c.banks[k].valid ==> c.banks[b].ready <= c.banks[k].ready)
                     && r.banks[b].ready == Max(c.now, c.groupReady[group]) + c.t.busReturn
                     && r.groupReady == c.groupReady[group := c.now + c.t.busReturn + c.t.groupStall])
  {
    LinkedOccupied(c);
    GroupsExist(c);
    MinBankIsFirst(c.banks, 0, 1);
    var m := MinBank(c.banks, 0, 1);
    forall k | 0 <= k < |c.banks| ensures NoWorse(c.banks[m], c.banks[k]) {}
  }

  // ------------------------------------------------------------------ the mode

  // The watermarks of seven and six eighths, as products: no rounding is lost.
  lemma {:induction false} SwapsAtWatermarks(c: Chan)
    ensures var size, writes, queued := |c.wq|, |Blocks(c.wq)|, |Blocks(c.rq)|;
            MustSwap(c) <==>
              if c.writeMode then writes == 0 || (queued > 0 && 8 * (writes + 1) <= 6 * size)
              else 8 * (writes + 1) > 7 * size || (queued == 0 && writes > 0)
  {
    OccupiedIs(c.wq);
    OccupiedIs(c.rq);
  }

  lemma {:induction false} OccupiedIs(q: Slots)
    ensures Occupied(q) == |Blocks(q)|
  {
    if q != [] { OccupiedIs(q[..|q| - 1]); }
  }

  lemma {:induction false} TimingOccupied(x: Slots, y: Slots)
    requires OnlyTiming(x, y)
    ensures Occupied(x) == Occupied(y)
  {
    if x != [] { TimingOccupied(x[..|x| - 1], y[..|y| - 1]); }
  }

  // The watermarks leave room between the modes: having changed, the mode does not
  // change back at once, unless a queue of a single slot is empty.
  lemma {:induction false} ModeSettles(c: Chan)
    requires Linked(c) && MustSwap(c)
    ensures BusOccupied(c) && PacketsOccupied(c)
    ensures var r := SwapWriteMode(c);
            r.writeMode == !c.writeMode && (!MustSwap(r) <==> |c.wq| >= 2 || Occupied(c.wq) > 0)
  {
    SwapLinked(c);
    var r := SwapWriteMode(c);
    TimingOccupied(c.wq, r.wq);
    TimingOccupied(c.rq, r.rq);
    ReleaseSameMode(c, 0);
    AtMostAll(c.wq);
  }

  lemma {:induction false} AtMostAll(q: Slots)
    ensures Occupied(q) <= |q|
  {
    if q != [] { AtMostAll(q[..|q| - 1]); }
  }

  lemma {:induction false} ReleaseSameMode(c: Chan, k: nat)
    requires k <= |c.banks| && PacketsOccupied(c)
    ensures ReleaseFrom(c, k).writeMode == c.writeMode
    decreases |c.banks| - k
  {
    if k < |c.banks| { ReleaseSameMode(ReleaseTurn(c, k), k + 1); }
  }

  // What a mode change leaves: only the bank on the bus is still valid; a released
  // bank keeps its row charged unless its access was nearly done, and its request
  // waits again from now on; the bus turns around after the transfer it has begun.
  lemma {:induction false} SwapReleases(c: Chan, b: nat)
    requires Linked(c) && MustSwap(c) && b < |c.banks|
    ensures BusOccupied(c) && PacketsOccupied(c)
    ensures var r := SwapWriteMode(c);
            && |r.banks| == |c.banks| && r.active == c.active
            && (c.active == Some(b) || !c.banks[b].valid ==> r.banks[b] == c.banks[b])
            && (c.active != Some(b) && c.banks[b].valid ==>
                  && !r.banks[b].valid
                  && r.banks[b].openRow == (if c.banks[b].ready < c.now + c.t.tCAS then None else c.banks[b].openRow)
                  && var p := c.banks[b].pkt;
                     && p.index < |Queue(r, p.write)| && Queue(r, p.write)[p.index].Some?
                     && !Queue(r, p.write)[p.index].value.scheduled && Queue(r, p.write)[p.index].value.ready == Some(c.now))
            && r.busAvailable == (if c.active.Some? then c.banks[c.active.value].ready else c.now) + c.t.turnAround
  {
    hide MustSwap;
    LinkedOccupied(c);
    ReleaseBankAt(c, 0, b);
    ReleaseFrame(c, 0);
    if c.active.Some? { ReleaseBankAt(c, 0, c.active.value); }
  }

  lemma {:induction false} ReleaseFrame(c: Chan, k: nat)
    requires PacketsOccupied(c) && k <= |c.banks|
    ensures var r := ReleaseFrom(c, k);
            r.active == c.active && r.now == c.now && r.t == c.t && |r.wq| == |c.wq| && |r.rq| == |c.rq|
    decreases |c.banks| - k
  {
    if k < |c.banks| { ReleaseFrame(ReleaseTurn(c, k), k + 1); }
  }

  lemma {:induction false} TurnAt(c: Chan, k: nat, b: nat)
    requires PacketsOccupied(c) && k < |c.banks| && b < |c.banks|
    ensures var r := ReleaseTurn(c, k);
            && |r.banks| == |c.banks| && r.active == c.active && r.now == c.now && r.t == c.t
            && (b != k || c.active == Some(b) || !c.banks[b].valid ==> r.banks[b] == c.banks[b])
            && (b == k && c.active != Some(b) && c.banks[b].valid ==>
                  && !r.banks[b].valid
                  && r.banks[b].openRow == (if c.banks[b].ready < c.now + c.t.tCAS then None else c.banks[b].openRow)
                  && var p := c.banks[b].pkt;
                     && p.index < |Queue(r, p.write)| && Queue(r, p.write)[p.index].Some?
                     && !Queue(r, p.write)[p.index].value.scheduled && Queue(r, p.write)[p.index].value.ready == Some(c.now))
  {
  }

  lemma {:induction false} ReleaseBankAt(c: Chan, k: nat, b: nat)
    requires Linked(c) && PacketsOccupied(c) && k <= |c.banks| && b < |c.banks|
    ensures var r := ReleaseFrom(c, k);
            && |r.banks| == |c.banks|
            && (b < k || c.active == Some(b) || !c.banks[b].valid ==> r.banks[b] == c.banks[b])
            && (b >= k && c.active != Some(b) && c.banks[b].valid ==>
                  && !r.banks[b].valid
                  && r.banks[b].openRow == (if c.banks[b].ready < c.now + c.t.tCAS then None else c.banks[b].openRow)
                  && var p := c.banks[b].pkt;
                     && p.index < |Queue(r, p.write)| && Queue(r, p.write)[p.index].Some?
                     && !Queue(r, p.write)[p.index].value.scheduled && Queue(r, p.write)[p.index].value.ready == Some(c.now))
    decreases |c.banks| - k
  {
    hide Linked, BankOk, ReleaseTurn, PacketsOccupied;
    if k < |c.banks| {
      var t := ReleaseTurn(c, k);
      ReleaseTurnLinked(c, k);
      TurnAt(c, k, b);
      ReleaseBankAt(t, k + 1, b);
      if b == k && c.active != Some(k) && c.banks[k].valid { ReleasedStays(t, k + 1, c.banks[k].pkt); }
    }
  }

  // A request that waits is not touched again.
  lemma {:induction false} ReleasedStays(c: Chan, k: nat, p: Pkt)
    requires Linked(c) && PacketsOccupied(c) && k <= |c.banks| && p.index < |Queue(c, p.write)|
    requires SlotAt(c, p).Some? && !SlotAt(c, p).value.scheduled
    ensures var r := ReleaseFrom(c, k); p.index < |Queue(r, p.write)| && SlotAt(r, p) == SlotAt(c, p)
    decreases |c.banks| - k
  {
    hide Linked;
    if k < |c.banks| {
      ReleaseTurnLinked(c, k);
      if c.banks[k].valid { BankServesScheduled(c, k); }
      ReleasedStays(ReleaseTurn(c, k), k + 1, p);
    }
  }

  lemma {:induction false} BankServesScheduled(c: Chan, b: nat)
    requires Linked(c) && b < |c.banks| && c.banks[b].valid
    ensures c.banks[b].pkt.index < |Queue(c, c.banks[b].pkt.write)|
    ensures SlotAt(c, c.banks[b].pkt).Some? && SlotAt(c, c.banks[b].pkt).value.scheduled
  {
    assert BankOk(c, b);
  }

  // --------------------------------------------------------------- refreshes

  // A refresh falls due at least every tREF; then every bank owes one or has begun it.
  lemma {:induction false} RefreshFallsDue(c: State)
    ensures var r := Operate(c);
            && (r.now < r.lastRefresh + c.t.tREF || r.lastRefresh == r.now)
            && (c.now >= c.lastRefresh + c.t.tREF ==>
                  r.lastRefresh == c.now && forall b :: 0 <= b < |c.banks| ==> r.banks[b].needRefresh || r.banks[b].underRefresh)
            && (c.now < c.lastRefresh + c.t.tREF ==> r.lastRefresh == c.lastRefresh)
  {
    hide Inv, FirstHalf, MinBank, SchedulePacket;
    FirstHalfRefresh(c);
    var h := FirstHalf(c);
    var s1 := RefreshStep(h);
    var s2 := PopulateStep(s1);
    var s3 := ServiceStep(s2);
    forall b | 0 <= b < |c.banks| && c.now >= c.lastRefresh + c.t.tREF ensures s3.banks[b].needRefresh || s3.banks[b].underRefresh {
      assert s1.banks[b].needRefresh || s1.banks[b].underRefresh;
      assert s2.banks[b].needRefresh == s1.banks[b].needRefresh && s2.banks[b].underRefresh == s1.banks[b].underRefresh;
      assert s2.banks[b].needRefresh ==> s2.banks[b].valid;
    }
  }

  lemma {:induction false} FirstHalfRefresh(c: State)
    ensures var r := FirstHalf(c); r.lastRefresh == c.lastRefresh && r.now == c.now && r.t == c.t && |r.banks| == |c.banks|
  {
    hide Inv, CheckWrites, CheckReads, MustSwap;
    var u := FinishStep(CollisionStep(DrainStep(c)));
    LinkedState(u);
    LinkedOccupied(u);
    ReleaseLast(u, 0);
  }

  lemma {:induction false} ReleaseLast(c: Chan, k: nat)
    requires k <= |c.banks| && PacketsOccupied(c)
    ensures ReleaseFrom(c, k).lastRefresh == c.lastRefresh
    decreases |c.banks| - k
  {
    if k < |c.banks| { ReleaseLast(ReleaseTurn(c, k), k + 1); }
  }

  // A bank that owes a refresh begins it as soon as it is idle, is under refresh
  // for tRFC, and has no row open afterwards; a busy bank only notes that it owes one.
  lemma {:induction false} RefreshRules(c: Chan, b: nat)
    requires b < |c.banks|
    ensures var x, y := c.banks[b], ScheduleRefresh(c).banks[b];
            var owes := x.needRefresh || c.now >= c.lastRefresh + c.t.tREF;
            && (owes && !x.valid ==> y == x.(needRefresh := false, underRefresh := true, ready := c.now + c.t.tRFC))
            && (owes && x.valid && !x.underRefresh ==> y == x.(needRefresh := true))
            && (!owes && x.underRefresh && x.ready <= c.now ==> y == x.(underRefresh := false, openRow := None))
            && (!owes && !(x.underRefresh && x.ready <= c.now) ==> y == x)
  {
  }

  // Refreshes go through the rows and start over at the end.
  lemma {:induction false} RefreshRowsWrap(c: Chan)
    requires 0 <= c.refreshRow < c.t.rows && c.t.rowsPerRefresh <= c.t.rows
    ensures var row, rows := ScheduleRefresh(c).refreshRow, c.t.rows;
            row < rows && row == if c.now >= c.lastRefresh + c.t.tREF then (c.refreshRow + c.t.rowsPerRefresh) % rows else c.refreshRow
  {
    var row: int := c.refreshRow + c.t.rowsPerRefresh;
    DivUnique(row, c.t.rows, if row >= c.t.rows then 1 else 0, if row >= c.t.rows then row - c.t.rows else row);
    DivUnique(c.refreshRow, c.t.rows, 0, c.refreshRow);
  }
}
