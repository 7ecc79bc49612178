// The DRAM channel as the program performs it: slots and banks are updated in
// place, sub-step by sub-step (DRAM_CHANNEL in champsim/src/dram_controller.cc).
module DramDevice {
  import opened Prelude
  import opened Bits
  import opened DramMapping
  import opened DramChannel
  import opened SetUnion
  import opened DramInvariant
  import opened DramRuns

  method FindIf(q: array<Option<Request>>, lo: nat, hi: nat, block: nat) returns (f: nat)
    requires lo <= hi <= q.Length
    ensures f == FirstMatch(q[..], lo, hi, block)
  {
    ghost var match_ := FirstMatch(q[..], lo, hi, block);
    f := lo;
    while f < hi && !Collides(q[f], block)
      invariant lo <= f <= hi && FirstMatch(q[..], f, hi, block) == match_
    {
      f := f + 1;
    }
  }

  method FindFree(q: array<Option<Request>>) returns (f: nat)
    ensures f == FirstFree(q[..])
  {
    f := 0;
    while f < q.Length && q[f].Some?
      invariant f <= q.Length && forall k :: 0 <= k < f ==> q[k].Some?
    {
      f := f + 1;
    }
    ghost var free := FirstFree(q[..]);
    assert free < q.Length ==> q[..][free].None?;
  }

  method CountOccupied(q: array<Option<Request>>) returns (n: nat)
    ensures n == Occupied(q[..])
  {
    n := 0;
    for k := 0 to q.Length
      invariant n == Occupied(q[..k])
    {
      assert q[..k + 1][..k] == q[..k];
      if q[k].Some? { n := n + 1; }
    }
    assert q[..q.Length] == q[..];
  }

  class DramChannelDevice {
    const g: Geometry
    const t: Timing
    const WQ: array<Option<Request>>
    const RQ: array<Option<Request>>
    const bankRequest: array<Bank>
    const bankgroupReadyTime: array<int>
    var now: int
    var warmup: bool
    var activeRequest: Option<nat>
    var writeMode: bool
    var dbusCycleAvailable: int
    var lastRefresh: int
    var refreshRow: int
    // what has been pushed to the return queues, oldest first
    var out: seq<Response>
    ghost var accepted: seq<Accepted>
    ghost var taken: seq<Taken>
    ghost var done: seq<nat>

    ghost const Repr: set<object> := {this, WQ, RQ, bankRequest, bankgroupReadyTime}

    ghost predicate Valid() {
      WQ != RQ && g.HasBanks()
    }

    ghost function View(): Chan
      reads Repr
    {
      Chan(t, now, warmup, WQ[..], RQ[..], bankRequest[..], activeRequest, writeMode, dbusCycleAvailable,
           bankgroupReadyTime[..], lastRefresh, refreshRow, out, accepted, taken, done)
    }

    constructor (g: Geometry, t: Timing, rqSize: nat, wqSize: nat)
      requires g.HasBanks()
      ensures Valid() && this.g == g && fresh(Repr)
      ensures View() == Start(t, BankCount(g), Pow2(g.rank) * Pow2(g.bankgroup), rqSize, wqSize)
    {
      var banks, groups := BankCount(g), Pow2(g.rank) * Pow2(g.bankgroup);
      this.g := g;
      this.t := t;
      WQ := new Option<Request>[wqSize](_ => None);
      RQ := new Option<Request>[rqSize](_ => None);
      bankRequest := new Bank[banks](_ => Bank(false, false, false, false, None, 0, Pkt(false, 0)));
      bankgroupReadyTime := new int[groups](_ => 0);
      now, warmup, activeRequest, writeMode, dbusCycleAvailable := 0, true, None, false, 0;
      lastRefresh, refreshRow, out, accepted := 0, 0, [], [];
      taken, done := [], [];
      new;
      ghost var s := Start(t, banks, groups, rqSize, wqSize);
      assert WQ[..] == s.wq && RQ[..] == s.rq && bankRequest[..] == s.banks && bankgroupReadyTime[..] == s.groupReady;
    }

    // -------------------------------------------------------- collision checks

    method CheckWriteCollision()
      requires Valid()
      modifies WQ
      ensures WQ[..] == CheckWrites(old(WQ[..]), 0)
    {
      ghost var result := CheckWrites(WQ[..], 0);
      for k := 0 to WQ.Length
        invariant CheckWrites(WQ[..], k) == result
      {
        if WQ[k].Some? && !WQ[k].value.checked {
          var block := WQ[k].value.place.block;
          var found := FindIf(WQ, 0, k, block);
          if found == k { found := FindIf(WQ, k + 1, WQ.Length, block); }
          if found != WQ.Length {
            WQ[k] := None;
          } else {
            WQ[k] := Some(WQ[k].value.(checked := true));
          }
        }
      }
    }

    method PushResponses(x: Request)
      modifies this`out
      ensures out == old(out) + Respond(x, |x.rets|)
    {
      for i := 0 to |x.rets|
        invariant out == old(out) + Respond(x, i)
      {
        out := out + [Response(x.rets[i], x.addr, x.place.block, x.deps)];
      }
    }

    method CheckOneRead(k: nat)
      requires Valid() && k < RQ.Length && RQ[k].Some? && !RQ[k].value.checked
      modifies RQ, this`out
      ensures Reads(RQ[..], out) == ReadTurn(WQ[..], old(Reads(RQ[..], out)), k)
    {
      var x := RQ[k].value;
      var write := FindIf(WQ, 0, WQ.Length, x.place.block);
      if write != WQ.Length {
        // write forward
        PushResponses(x);
        RQ[k] := None;
        return;
      }
      // backwards check, then forwards check
      var found := FindIf(RQ, 0, k, x.place.block);
      if found == k { found := FindIf(RQ, k + 1, RQ.Length, x.place.block); }
      if found != RQ.Length {
        RQ[found] := Some(Absorb(RQ[found].value, x));
        RQ[k] := None;
      } else {
        RQ[k] := Some(x.(checked := true));
      }
    }

    method CheckReadCollision()
      requires Valid()
      modifies RQ, this`out
      ensures Reads(RQ[..], out) == CheckReads(WQ[..], old(Reads(RQ[..], out)), 0)
    {
      ghost var result := CheckReads(WQ[..], Reads(RQ[..], out), 0);
      for k := 0 to RQ.Length
        invariant CheckReads(WQ[..], Reads(RQ[..], out), k) == result
      {
        if RQ[k].Some? && !RQ[k].value.checked { CheckOneRead(k); }
      }
    }

    method DrainQueues()
      requires Valid()
      modifies WQ, RQ, this`out, this`done
      ensures View() == Drain(old(View()))
    {
      if !warmup { return; }
      done := done + Blocks(WQ[..]);
      ghost var result := DrainReads(Reads(RQ[..], out), 0);
      for k := 0 to RQ.Length
        invariant WQ[..] == old(WQ[..]) && DrainReads(Reads(RQ[..], out), k) == result
        invariant done == old(done) + Blocks(old(WQ[..]))
      {
        if RQ[k].Some? {
          PushResponses(RQ[k].value);
          RQ[k] := None;
        }
      }
      for k := 0 to WQ.Length
        modifies WQ
        invariant RQ[..] == result.rq && forall m :: 0 <= m < k ==> WQ[m] == None
      {
        WQ[k] := None;
      }
      assert WQ[..] == EmptyQueue(WQ.Length);
    }

    // ------------------------------------------------------------ the data bus

    method FinishDbusRequest()
      requires Valid() && BusOccupied(View())
      modifies this`out, this`done, this`activeRequest, WQ, RQ, bankRequest
      ensures View() == FinishBus(old(View()))
    {
      if activeRequest.None? || bankRequest[activeRequest.value].ready > now { return; }
      var b := activeRequest.value;
      var p := bankRequest[b].pkt;
      var queue := if p.write then WQ else RQ;
      PushResponses(queue[p.index].value);
      if p.write { done := done + [queue[p.index].value.place.block]; }
      bankRequest[b] := bankRequest[b].(valid := false);
      queue[p.index] := None;
      activeRequest := None;
    }

    method ReleaseOne(k: nat)
      requires Valid() && k < bankRequest.Length && PacketsOccupied(View())
      modifies WQ, RQ, bankRequest
      ensures View() == ReleaseTurn(old(View()), k)
    {
      // leave the active request on the data bus
      if activeRequest == Some(k) || !bankRequest[k].valid { return; }
      var bank := bankRequest[k];
      if bank.ready < now + t.tCAS { bank := bank.(openRow := None); }
      var queue := if bank.pkt.write then WQ else RQ;
      var index := bank.pkt.index;
      queue[index] := Some(queue[index].value.(scheduled := false, ready := Some(now)));
      bankRequest[k] := bank.(valid := false);
    }

    method ReleaseBanks()
      requires Valid() && PacketsOccupied(View())
      modifies WQ, RQ, bankRequest
      ensures View() == ReleaseFrom(old(View()), 0)
    {
      ghost var result := ReleaseFrom(View(), 0);
      for k := 0 to bankRequest.Length
        invariant PacketsOccupied(View()) && ReleaseFrom(View(), k) == result
      {
        ReleaseOne(k);
      }
    }

    method SwapMode()
      requires Valid() && BusOccupied(View()) && PacketsOccupied(View())
      modifies this`dbusCycleAvailable, this`writeMode, WQ, RQ, bankRequest
      ensures View() == SwapWriteMode(old(View()))
    {
      hide ReleaseFrom, Occupied;
      var writes := CountOccupied(WQ);
      var pendingReads := CountOccupied(RQ);
      var high, low := WQ.Length * 7 / 8, WQ.Length * 6 / 8;
      if (!writeMode && (writes >= high || (pendingReads == 0 && writes > 0)))
         || (writeMode && (writes == 0 || (pendingReads > 0 && writes < low)))
      {
        ReleaseBanks();
        if activeRequest.Some? {
          dbusCycleAvailable := bankRequest[activeRequest.value].ready + t.turnAround;
        } else {
          dbusCycleAvailable := now + t.turnAround;
        }
        writeMode := !writeMode;
      }
    }

    method RefreshAll()
      requires Valid()
      modifies this`lastRefresh, this`refreshRow, bankRequest
      ensures View() == ScheduleRefresh(old(View()))
    {
      hide RefreshBanks;
      var due := now >= lastRefresh + t.tREF;
      if due {
        lastRefresh := now;
        refreshRow := refreshRow + t.rowsPerRefresh;
        if refreshRow >= t.rows { refreshRow := refreshRow - t.rows; }
      }
      ghost var result := RefreshBanks(bankRequest[..], due, now, t.tRFC);
      for k := 0 to bankRequest.Length
        modifies bankRequest
        invariant forall m :: 0 <= m < k ==> bankRequest[m] == result[m]
        invariant forall m :: k <= m < bankRequest.Length ==> bankRequest[m] == old(bankRequest[..])[m]
      {
        var b := bankRequest[k];
        if due { b := b.(needRefresh := true); }
        if b.needRefresh && !b.valid {
          b := b.(ready := now + t.tRFC, needRefresh := false, underRefresh := true);
        } else if b.underRefresh && b.ready <= now {
          b := b.(underRefresh := false, openRow := None);
        }
        bankRequest[k] := b;
      }
      assert bankRequest[..] == result;
    }

    method NextOnBus() returns (b: nat)
      requires bankRequest.Length > 0
      ensures b == MinBank(bankRequest[..], 0, 1)
    {
      b := 0;
      var j := 1;
      while j < bankRequest.Length
        invariant b < j <= bankRequest.Length && MinBank(bankRequest[..], b, j) == MinBank(bankRequest[..], 0, 1)
      {
        if BankBefore(bankRequest[j], bankRequest[b]) { b := j; }
        j := j + 1;
      }
    }

    method PopulateDbus()
      requires Valid() && bankRequest.Length > 0 && PacketsOccupied(View())
      requires forall b :: 0 <= b < bankRequest.Length && bankRequest[b].valid ==>
                 SlotAt(View(), bankRequest[b].pkt).value.place.group < bankgroupReadyTime.Length
      modifies this`activeRequest, bankRequest, bankgroupReadyTime
      ensures View() == PopulateBus(old(View()))
    {
      var b := NextOnBus();
      if bankRequest[b].valid && bankRequest[b].ready <= now && activeRequest.None? && dbusCycleAvailable <= now {
        var p := bankRequest[b].pkt;
        var queue := if p.write then WQ else RQ;
        assert SlotAt(View(), p).Some?;
        var group := queue[p.index].value.place.group;
        var groupReady := bankgroupReadyTime[group];
        activeRequest := Some(b);
        if groupReady > now {
          bankRequest[b] := bankRequest[b].(ready := groupReady + t.busReturn);
        } else {
          bankRequest[b] := bankRequest[b].(ready := now + t.busReturn);
        }
        bankgroupReadyTime[group] := now + t.busReturn + t.groupStall;
      }
    }

    // ------------------------------------------------------------- scheduling

    method NextToSchedule() returns (m: nat)
      requires Valid() && WQ.Length > 0 && RQ.Length > 0
      requires BanksExist(Queue(View(), writeMode), bankRequest[..])
      ensures m < |Queue(View(), writeMode)| && m == SchedulePacket(View())
    {
      var queue := if writeMode then WQ else RQ;
      m := 0;
      var j := 1;
      while j < queue.Length
        invariant m < j <= queue.Length
        invariant MinSlot(queue[..], bankRequest[..], m, j) == MinSlot(queue[..], bankRequest[..], 0, 1)
      {
        if SlotBefore(queue[j], queue[m], bankRequest[..]) { m := j; }
        j := j + 1;
      }
    }

    method Service(m: nat)
      requires Valid() && m < |Queue(View(), writeMode)| && BanksExist(Queue(View(), writeMode), bankRequest[..])
      modifies WQ, RQ, bankRequest
      ensures View() == ServicePacket(old(View()), m)
    {
      var queue := if writeMode then WQ else RQ;
      if queue[m].None? || queue[m].value.ready.None? || queue[m].value.ready.value > now { return; }
      var x := queue[m].value;
      assert Queue(View(), writeMode)[m] == Some(x);
      var b := bankRequest[x.place.bank];
      if b.valid || b.underRefresh { return; }
      var rowBufferHit := b.openRow == Some(x.place.row);
      var rowChargeDelay := if b.openRow.Some? then t.tRP + t.tRCD else t.tRCD;
      bankRequest[x.place.bank] :=
        Bank(true, rowBufferHit, false, false, Some(x.place.row),
             now + t.tCAS + if rowBufferHit then 0 else rowChargeDelay, Pkt(writeMode, m));
      queue[m] := Some(x.(scheduled := true, ready := None));
    }

    // --------------------------------------------------------------- one cycle

    method FirstHalfPhase()
      requires Valid() && Inv(View())
      modifies Repr
      ensures View() == FirstHalf(old(View()))
    {
      DrainPhase();
      CheckPhase();
      FinishPhase();
      SwapPhase();
    }

    method DrainPhase()
      requires Valid() && Inv(View())
      modifies Repr
      ensures View() == DrainStep(old(View()))
    {
      DrainQueues();
    }

    method CheckPhase()
      requires Valid() && Inv(View()) && (warmup ==> NoneQueued(View()))
      modifies Repr
      ensures View() == CollisionStep(old(View()))
    {
      CheckWriteCollision();
      CheckReadCollision();
    }

    method FinishPhase()
      requires Valid() && Inspected(View())
      modifies Repr
      ensures View() == FinishStep(old(View()))
    {
      LinkedOccupied(View());
      FinishDbusRequest();
    }

    method SwapPhase()
      requires Valid() && Inspected(View())
      modifies Repr
      ensures View() == SwapStep(old(View()))
    {
      LinkedOccupied(View());
      SwapMode();
    }

    method SecondHalfPhase()
      requires Valid() && Inspected(View())
      modifies Repr
      ensures View() == SecondHalf(old(View()))
    {
      RefreshPhase();
      PopulatePhase();
      ServicePhase();
    }

    method RefreshPhase()
      requires Valid() && Inspected(View())
      modifies Repr
      ensures View() == RefreshStep(old(View()))
    {
      RefreshAll();
    }

    method PopulatePhase()
      requires Valid() && Inspected(View())
      requires forall b :: 0 <= b < bankRequest.Length && View().banks[b].needRefresh ==> View().banks[b].valid
      modifies Repr
      ensures View() == PopulateStep(old(View()))
    {
      GroupsExist(View());
      PopulateDbus();
    }

    method ServicePhase()
      requires Valid() && Inspected(View())
      modifies Repr
      ensures View() == ServiceStep(old(View()))
    {
      LinkedOccupied(View());
      var m := NextToSchedule();
      Service(m);
    }

    // DRAM_CHANNEL::operate.
    method Operate()
      requires Valid() && Inv(View())
      modifies Repr
      ensures View() == DramRuns.Operate(old(View()))
    {
      FirstHalfPhase();
      SecondHalfPhase();
    }

    // MEMORY_CONTROLLER::add_rq and add_wq.
    method AddRq(addr: nat, deps: seq<nat>, ret: Option<nat>) returns (ok: bool)
      requires Valid()
      modifies RQ, this`accepted
      ensures (View(), ok) == AddRead(old(View()), addr, PlaceOf(g, addr), deps, ret)
    {
      var f := FindFree(RQ);
      if f == RQ.Length { return false; }
      var place := PlaceOf(g, addr);
      RQ[f] := Some(NewRequest(addr, place, now, deps, if ret.Some? then [ret.value] else []));
      accepted := accepted + if ret.Some? then [Accepted(ret.value, place.block, deps, |out|)] else [];
      return true;
    }

    method AddWq(addr: nat, deps: seq<nat>) returns (ok: bool)
      requires Valid()
      modifies WQ, this`taken
      ensures (View(), ok) == AddWrite(old(View()), addr, PlaceOf(g, addr), deps)
    {
      var f := FindFree(WQ);
      if f == WQ.Length { return false; }
      WQ[f] := Some(NewRequest(addr, PlaceOf(g, addr), now, deps, []));
      taken := taken + [Taken(PlaceOf(g, addr).block, |done|)];
      return true;
    }
  }
}
