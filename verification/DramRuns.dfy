// Whole cycles and whole runs of a DRAM channel: every state it can reach from
// an empty one, whatever requests arrive and whenever.
module DramRuns {
  import opened Prelude
  import opened Bits
  import opened DramMapping
  import opened DramChannel
  import opened SetUnion
  import opened DramInvariant

  predicate NoneValid(c: Chan) {
    forall b :: 0 <= b < |c.banks| ==> !c.banks[b].valid
  }

  predicate NoneQueued(c: Chan) {
    && (forall i :: 0 <= i < |c.wq| ==> c.wq[i].None?)
    && (forall i :: 0 <= i < |c.rq| ==> c.rq[i].None?)
  }

  ghost predicate Inv(c: Chan) {
    && Linked(c)
    && CheckedDistinct(c.wq) && CheckedDistinct(c.rq)
    && SortedLists(c.rq)
    && AllCarried(c) && AllWritten(c)
    && (c.warmup ==> NoneValid(c))
  }

  function Start(t: Timing, banks: nat, groups: nat, rqSize: nat, wqSize: nat): Chan {
    Chan(t, 0, true, EmptyQueue(wqSize), EmptyQueue(rqSize), seq(banks, _ => Bank(false, false, false, false, None, 0, Pkt(false, 0))),
         None, false, 0, seq(groups, _ => 0), 0, 0, [], [], [], [])
  }

  lemma {:induction false} StartInv(t: Timing, banks: nat, groups: nat, rqSize: nat, wqSize: nat)
    requires banks > 0 && rqSize > 0 && wqSize > 0
    ensures Inv(Start(t, banks, groups, rqSize, wqSize))
  {
  }

  function NoTiming(): Timing {
    Timing(0, 0, 0, 0, 0, 0, 0, 0, 0, 0, 0)
  }

  type State = c: Chan | Inv(c)
    ghost witness (StartInv(NoTiming(), 1, 1, 1, 1); Start(NoTiming(), 1, 1, 1, 1))

  // After the collision checks: nothing is left unchecked, and warmup has
  // emptied both queues.
  ghost predicate Inspected(c: Chan) {
    Inv(c) && AllChecked(c.wq) && AllChecked(c.rq) && (c.warmup ==> NoneQueued(c))
  }

  type Checked = c: Chan | Inspected(c)
    ghost witness (StartInv(NoTiming(), 1, 1, 1, 1); Start(NoTiming(), 1, 1, 1, 1))

  // What the outside world cannot tell from the histories alone.
  predicate SameWorld(c: Chan, r: Chan) {
    && r.t == c.t && r.now == c.now && r.warmup == c.warmup && r.accepted == c.accepted
    && |r.wq| == |c.wq| && |r.rq| == |c.rq| && |r.banks| == |c.banks| && |r.groupReady| == |c.groupReady|
    && r.taken == c.taken && c.done <= r.done
    && c.out <= r.out && Kept(c.wq, r.wq) && Kept(c.rq, r.rq)
  }

  // Requests leave, or stay in their slots with their addresses.
  predicate Kept(x: Slots, y: Slots) {
    |y| == |x| && forall i :: 0 <= i < |x| && y[i].Some? ==>
      x[i].Some? && y[i].value.addr == x[i].value.addr && y[i].value.place == x[i].value.place
  }

  lemma {:induction false} CheckWritesKept(q: Slots, k: nat)
    requires k <= |q|
    ensures Kept(q, CheckWrites(q, k))
    decreases |q| - k
  {
    if k < |q| { CheckWritesKept(WriteTurn(q, k), k + 1); }
  }

  lemma {:induction false} CheckReadsKept(wq: Slots, r: Reads, k: nat)
    requires k <= |r.rq|
    ensures Kept(r.rq, CheckReads(wq, r, k).rq)
    decreases |r.rq| - k
  {
    if k < |r.rq| { CheckReadsKept(wq, ReadTurn(wq, r, k), k + 1); }
  }

  lemma {:induction false} TimingKept(x: Slots, y: Slots)
    requires OnlyTiming(x, y)
    ensures Kept(x, y)
  {
  }

  // -------------------------------------------------------- collision checks

  lemma {:induction false} DrainedEmpty(r: Reads, k: nat)
    requires k <= |r.rq| && forall i :: 0 <= i < k ==> r.rq[i].None?
    ensures forall i :: 0 <= i < |r.rq| ==> DrainReads(r, k).rq[i].None?
    decreases |r.rq| - k
  {
    if k < |r.rq| {
      if r.rq[k].None? {
        DrainedEmpty(r, k + 1);
      } else {
        DrainedEmpty(Reads(r.rq[k := None], r.out + Respond(r.rq[k].value, |r.rq[k].value.rets|)), k + 1);
      }
    }
  }

  lemma {:induction false} DrainOut(r: Reads, k: nat)
    requires k <= |r.rq|
    ensures r.out <= DrainReads(r, k).out
    decreases |r.rq| - k
  {
    if k < |r.rq| {
      if r.rq[k].None? {
        DrainOut(r, k + 1);
      } else {
        DrainOut(Reads(r.rq[k := None], r.out + Respond(r.rq[k].value, |r.rq[k].value.rets|)), k + 1);
      }
    }
  }

  lemma {:induction false} NoneLinked(c: Chan)
    requires c.active.None? && NoneValid(c) && NoneQueued(c) && c.wq != [] && c.rq != [] && c.banks != []
    ensures Linked(c)
  {
    forall v, j | 0 <= j < |Queue(c, v)| ensures SlotOk(c, v, j) {}
  }

  lemma {:induction false} DrainQuiet(c: Chan)
    requires Inv(c) && c.warmup
    ensures NoneQueued(Drain(c)) && Linked(Drain(c)) && SameWorld(c, Drain(c))
  {
    DrainedEmpty(Reads(c.rq, c.out), 0);
    DrainOut(Reads(c.rq, c.out), 0);
    NoneLinked(Drain(c));
  }

  lemma {:induction false} DrainCarried(c: Chan)
    requires AllCarried(c)
    ensures AllCarried(Drain(c))
  {
    if c.warmup {
      forall k | 0 <= k < |c.accepted| ensures Carried(Drain(c).rq, Drain(c).out, c.accepted[k]) {
        DrainReadsKeeps(Reads(c.rq, c.out), 0, c.accepted[k]);
      }
    }
  }

  lemma {:induction false} DrainWritten(c: Chan)
    requires AllWritten(c)
    ensures AllWritten(Drain(c))
  {
    if c.warmup {
      forall k | 0 <= k < |c.taken| ensures Written(Drain(c).wq, Drain(c).done, c.taken[k]) {
        DrainingKeeps(c.wq, Drain(c).wq, c.done, c.taken[k]);
      }
    }
  }

  ghost function DrainStep(c: State): (r: State)
    ensures SameWorld(c, r) && (r.warmup ==> NoneQueued(r)) && r == Drain(c)
  {
    DrainCarried(c);
    DrainWritten(c);
    if c.warmup then
      DrainQuiet(c);
      Drain(c)
    else c
  }

  lemma {:induction false} CheckWritesNone(q: Slots, k: nat)
    requires k <= |q| && forall i :: 0 <= i < |q| ==> q[i].None?
    ensures CheckWrites(q, k) == q
    decreases |q| - k
  {
    if k < |q| { CheckWritesNone(q, k + 1); }
  }

  lemma {:induction false} CheckReadsNone(wq: Slots, r: Reads, k: nat)
    requires k <= |r.rq| && forall i :: 0 <= i < |r.rq| ==> r.rq[i].None?
    ensures CheckReads(wq, r, k) == r
    decreases |r.rq| - k
  {
    if k < |r.rq| { CheckReadsNone(wq, r, k + 1); }
  }

  lemma {:induction false} CheckReadsOut(wq: Slots, r: Reads, k: nat)
    requires k <= |r.rq|
    ensures r.out <= CheckReads(wq, r, k).out
    decreases |r.rq| - k
  {
    if k < |r.rq| { CheckReadsOut(wq, ReadTurn(wq, r, k), k + 1); }
  }

  lemma {:induction false} CollisionsLinked(c: Chan)
    requires Linked(c)
    ensures Linked(CheckCollisions(c)) && SameWorld(c, CheckCollisions(c))
  {
    CheckWritesLinked(c, 0);
    CheckReadsLinked(c.(wq := CheckWrites(c.wq, 0)), 0);
    CheckReadsOut(CheckWrites(c.wq, 0), Reads(c.rq, c.out), 0);
    CheckWritesKept(c.wq, 0);
    CheckReadsKept(CheckWrites(c.wq, 0), Reads(c.rq, c.out), 0);
  }

  lemma {:induction false} CollisionsCarried(c: Chan)
    requires AllCarried(c)
    ensures AllCarried(CheckCollisions(c))
  {
    forall k | 0 <= k < |c.accepted| ensures Carried(CheckCollisions(c).rq, CheckCollisions(c).out, c.accepted[k]) {
      CheckReadsKeeps(CheckWrites(c.wq, 0), Reads(c.rq, c.out), 0, c.accepted[k]);
    }
  }

  lemma {:induction false} CollisionsWritten(c: Chan)
    requires AllWritten(c)
    ensures AllWritten(CheckCollisions(c))
  {
    forall k | 0 <= k < |c.taken| ensures Written(CheckCollisions(c).wq, c.done, c.taken[k]) {
      CheckWritesHolds(c.wq, 0, c.taken[k].block);
    }
  }

  lemma {:induction false} CollisionsQueues(c: Chan)
    requires CheckedDistinct(c.wq) && CheckedDistinct(c.rq) && SortedLists(c.rq)
    ensures var r := CheckCollisions(c);
            && CheckedDistinct(r.wq) && AllChecked(r.wq) && CheckedDistinct(r.rq) && AllChecked(r.rq) && SortedLists(r.rq)
            && (NoneQueued(c) ==> NoneQueued(r))
  {
    var wq := CheckWrites(c.wq, 0);
    CheckWritesDistinct(c.wq, 0);
    CheckReadsDistinct(wq, Reads(c.rq, c.out), 0);
    CheckReadsSorted(wq, Reads(c.rq, c.out), 0);
    if NoneQueued(c) {
      CheckWritesNone(c.wq, 0);
      CheckReadsNone(wq, Reads(c.rq, c.out), 0);
    }
  }

  ghost function CollisionStep(c: State): (r: Checked)
    requires c.warmup ==> NoneQueued(c)
    ensures SameWorld(c, r) && r == CheckCollisions(c)
  {
    CollisionsLinked(c);
    CollisionsCarried(c);
    CollisionsWritten(c);
    CollisionsQueues(c);
    CheckCollisions(c)
  }

  // ------------------------------------------------------------- timing steps

  // Slots change only their schedule and their ready times.
  predicate OnlyTiming(x: Slots, y: Slots) {
    |x| == |y| && forall i :: 0 <= i < |x| ==>
      (x[i].None? <==> y[i].None?)
      && (x[i].Some? ==> y[i].value == x[i].value.(scheduled := y[i].value.scheduled, ready := y[i].value.ready))
  }

  lemma {:induction false} OnlyTimingTrans(x: Slots, y: Slots, z: Slots)
    requires OnlyTiming(x, y) && OnlyTiming(y, z)
    ensures OnlyTiming(x, z)
  {
  }

  lemma {:induction false} TimingQueue(x: Slots, y: Slots)
    requires OnlyTiming(x, y) && CheckedDistinct(x) && AllChecked(x)
    ensures CheckedDistinct(y) && AllChecked(y) && (SortedLists(x) ==> SortedLists(y))
  {
    forall i, j | 0 <= i < |y| && 0 <= j < |y| && i != j && Vetted(y[i]) && Vetted(y[j])
      ensures y[i].value.place.block != y[j].value.place.block
    {
      assert Vetted(x[i]) && Vetted(x[j]);
    }
  }

  lemma {:induction false} TimingCarried(x: Slots, y: Slots, out: seq<Response>, a: Accepted)
    requires OnlyTiming(x, y) && Carried(x, out, a)
    ensures Carried(y, out, a)
  {
    if i :| 0 <= i < |x| && SlotCarries(x[i], a) { assert SlotCarries(y[i], a); }
  }

  lemma {:induction false} TimingWritten(x: Slots, y: Slots, done: seq<nat>, w: Taken)
    requires OnlyTiming(x, y) && Written(x, done, w)
    ensures Written(y, done, w)
  {
    if i :| 0 <= i < |x| && Collides(x[i], w.block) { assert Collides(y[i], w.block); }
  }

  lemma {:induction false} TimingKeeps(c: Chan, r: Chan)
    requires Inspected(c) && OnlyTiming(c.wq, r.wq) && OnlyTiming(c.rq, r.rq)
    requires r.accepted == c.accepted && r.out == c.out && r.taken == c.taken && r.done == c.done
    ensures CheckedDistinct(r.wq) && AllChecked(r.wq) && CheckedDistinct(r.rq) && AllChecked(r.rq)
    ensures SortedLists(r.rq) && AllCarried(r) && AllWritten(r)
    ensures c.warmup ==> NoneQueued(r)
  {
    TimingQueue(c.wq, r.wq);
    TimingQueue(c.rq, r.rq);
    forall k | 0 <= k < |c.accepted| ensures Carried(r.rq, r.out, c.accepted[k]) {
      TimingCarried(c.rq, r.rq, c.out, c.accepted[k]);
    }
    forall k | 0 <= k < |c.taken| ensures Written(r.wq, r.done, c.taken[k]) { TimingWritten(c.wq, r.wq, c.done, c.taken[k]); }
  }

  // A step that schedules, releases or refreshes.
  ghost function TimingStep(c: Checked, r: Chan): (r': Checked)
    requires Linked(r) && SameWorld(c, r) && r.out == c.out && r.done == c.done
    requires OnlyTiming(c.wq, r.wq) && OnlyTiming(c.rq, r.rq)
    requires c.warmup ==> NoneValid(r)
    ensures r' == r
  {
    TimingKeeps(c, r);
    r
  }

  lemma {:induction false} ReleaseSameWorld(c: Chan, k: nat)
    requires k <= |c.banks| && PacketsOccupied(c)
    ensures var r := ReleaseFrom(c, k); SameWorld(c, r) && r.out == c.out && r.done == c.done
    decreases |c.banks| - k
  {
    ReleaseOnlyTiming(c, k);
    if k < |c.banks| { ReleaseSameWorld(ReleaseTurn(c, k), k + 1); }
  }

  lemma {:induction false} TurnOnlyTiming(c: Chan, k: nat)
    requires k < |c.banks| && PacketsOccupied(c)
    ensures var t := ReleaseTurn(c, k); OnlyTiming(c.wq, t.wq) && OnlyTiming(c.rq, t.rq)
  {
  }

  lemma {:induction false} ReleaseOnlyTiming(c: Chan, k: nat)
    requires k <= |c.banks| && PacketsOccupied(c)
    ensures var r := ReleaseFrom(c, k); OnlyTiming(c.wq, r.wq) && OnlyTiming(c.rq, r.rq)
    decreases |c.banks| - k
  {
    if k < |c.banks| {
      var t := ReleaseTurn(c, k);
      TurnOnlyTiming(c, k);
      ReleaseOnlyTiming(t, k + 1);
      OnlyTimingTrans(c.wq, t.wq, ReleaseFrom(t, k + 1).wq);
      OnlyTimingTrans(c.rq, t.rq, ReleaseFrom(t, k + 1).rq);
    }
  }

  lemma {:induction false} ReleaseNothing(c: Chan, k: nat)
    requires k <= |c.banks| && NoneValid(c)
    ensures PacketsOccupied(c) && ReleaseFrom(c, k) == c
    decreases |c.banks| - k
  {
    if k < |c.banks| { ReleaseNothing(c, k + 1); }
  }

  lemma {:induction false} SwapLinked(c: Chan)
    requires Linked(c)
    ensures BusOccupied(c) && PacketsOccupied(c)
    ensures var r := SwapWriteMode(c);
            && Linked(r) && OnlyTiming(c.wq, r.wq) && OnlyTiming(c.rq, r.rq) && SameWorld(c, r) && r.out == c.out && r.done == c.done
            && (NoneValid(c) ==> NoneValid(r))
  {
    LinkedOccupied(c);
    if MustSwap(c) {
      ReleaseFromLinked(c, 0);
      TurnAroundLinked(ReleaseFrom(c, 0));
      ReleaseOnlyTiming(c, 0);
      ReleaseSameWorld(c, 0);
      if NoneValid(c) { ReleaseNothing(c, 0); }
    }
  }

  ghost function SwapStep(c: Checked): (r: Checked)
    ensures SameWorld(c, r) && BusOccupied(c) && PacketsOccupied(c) && r == SwapWriteMode(c)
  {
    SwapLinked(c);
    TimingStep(c, SwapWriteMode(c))
  }

  ghost function RefreshStep(c: Checked): (r: Checked)
    ensures SameWorld(c, r) && r == ScheduleRefresh(c)
    ensures forall b :: 0 <= b < |r.banks| && r.banks[b].needRefresh ==> r.banks[b].valid
  {
    ScheduleRefreshLinked(c);
    TimingStep(c, ScheduleRefresh(c))
  }

  ghost function PopulateStep(c: Checked): (r: Checked)
    requires forall b :: 0 <= b < |c.banks| && c.banks[b].needRefresh ==> c.banks[b].valid
    ensures SameWorld(c, r)
    ensures forall b :: 0 <= b < |r.banks| && r.banks[b].needRefresh ==> r.banks[b].valid
  {
    GroupsExist(c);
    PopulateBusLinked(c);
    TimingStep(c, PopulateBus(c))
  }

  // Servicing a packet never overwrites a pending refresh: the bank it takes
  // was idle, and idle banks have none pending.
  lemma {:induction false} ServiceKeepsRefresh(c: Chan, m: nat)
    requires m < |Queue(c, c.writeMode)| && BanksExist(Queue(c, c.writeMode), c.banks)
    requires forall b :: 0 <= b < |c.banks| && c.banks[b].needRefresh ==> c.banks[b].valid
    ensures forall b :: 0 <= b < |c.banks| ==> ServicePacket(c, m).banks[b].needRefresh == c.banks[b].needRefresh
    ensures forall b :: 0 <= b < |c.banks| && c.banks[b].valid ==> ServicePacket(c, m).banks[b] == c.banks[b]
  {
  }

  lemma {:induction false} ServiceTiming(c: Chan, m: nat)
    requires m < |Queue(c, c.writeMode)| && BanksExist(Queue(c, c.writeMode), c.banks)
    ensures var r := ServicePacket(c, m);
            && OnlyTiming(c.wq, r.wq) && OnlyTiming(c.rq, r.rq) && SameWorld(c, r) && r.out == c.out && r.done == c.done
            && (NoneQueued(c) ==> r == c)
  {
  }

  ghost function ServiceStep(c: Checked): (r: Checked)
    ensures SameWorld(c, r)
    ensures forall b :: 0 <= b < |c.banks| && c.banks[b].valid ==> r.banks[b] == c.banks[b]
  {
    LinkedOccupied(c);
    var m := SchedulePacket(c);
    ServicePacketLinked(c, m);
    ServiceTiming(c, m);
    TimingStep(c, ServicePacket(c, m))
  }

  // ------------------------------------------------------------ the data bus

  lemma {:induction false} EmptiedQueue(q: Slots, i: nat)
    requires i < |q| && CheckedDistinct(q) && AllChecked(q)
    ensures CheckedDistinct(q[i := None]) && AllChecked(q[i := None])
  {
  }

  lemma {:induction false} FinishBusCarried(c: Chan)
    requires BusOccupied(c) && AllCarried(c)
    ensures AllCarried(FinishBus(c))
  {
    var r := FinishBus(c);
    if r != c {
      var p := c.banks[c.active.value].pkt;
      forall k | 0 <= k < |c.accepted| ensures Carried(r.rq, r.out, c.accepted[k]) {
        if p.write {
          CarriedMore(c.rq, c.out, Respond(SlotAt(c, p).value, |SlotAt(c, p).value.rets|), c.accepted[k]);
        } else {
          RespondKeeps(c.rq, c.out, p.index, c.accepted[k]);
        }
      }
    }
  }

  lemma {:induction false} FinishBusWritten(c: Chan)
    requires BusOccupied(c) && AllWritten(c)
    ensures AllWritten(FinishBus(c))
  {
    var r := FinishBus(c);
    if r != c {
      var p := c.banks[c.active.value].pkt;
      forall k | 0 <= k < |c.taken| ensures Written(r.wq, r.done, c.taken[k]) {
        if p.write { DoingKeeps(c.wq, c.done, p.index, c.taken[k]); }
      }
    }
  }

  lemma {:induction false} CarriedMore(rq: Slots, out: seq<Response>, more: seq<Response>, a: Accepted)
    requires Carried(rq, out, a)
    ensures Carried(rq, out + more, a)
  {
    if Answered(out, a) { AnswerStays(out, more, a); }
  }

  lemma {:induction false} FinishBusQueues(c: Chan)
    requires Inspected(c) && BusOccupied(c)
    ensures var r := FinishBus(c);
            && CheckedDistinct(r.wq) && AllChecked(r.wq) && CheckedDistinct(r.rq) && AllChecked(r.rq) && SortedLists(r.rq)
            && SameWorld(c, r) && (c.warmup ==> NoneQueued(r) && NoneValid(r))
  {
    var r := FinishBus(c);
    if r != c {
      var p := c.banks[c.active.value].pkt;
      EmptiedQueue(Queue(c, p.write), p.index);
    }
  }

  ghost function FinishStep(c: Checked): (r: Checked)
    ensures SameWorld(c, r) && BusOccupied(c) && r == FinishBus(c)
  {
    LinkedOccupied(c);
    FinishBusLinked(c);
    FinishBusQueues(c);
    FinishBusCarried(c);
    FinishBusWritten(c);
    FinishBus(c)
  }

  // --------------------------------------------------- what the scans choose

  // Idle banks last, then by ready time.
  predicate NoWorse(x: Bank, y: Bank) {
    y.valid ==> x.valid && x.ready <= y.ready
  }

  // Although the comparator holds of any bank against an idle one, the scan
  // returns a valid bank with the earliest ready time, if any bank is valid.
  lemma {:induction false} MinBankIsFirst(banks: seq<Bank>, best: nat, j: nat)
    requires best < j <= |banks| && forall k :: 0 <= k < j ==> NoWorse(banks[best], banks[k])
    ensures forall k :: 0 <= k < |banks| ==> NoWorse(banks[MinBank(banks, best, j)], banks[k])
    decreases |banks| - j
  {
    if j < |banks| {
      var next := if BankBefore(banks[j], banks[best]) then j else best;
      forall k | 0 <= k <= j ensures NoWorse(banks[next], banks[k]) {
        if k < j { assert NoWorse(banks[best], banks[k]); }
      }
      MinBankIsFirst(banks, next, j + 1);
    }
  }

  // Slots that do not wait last; then requests to busy banks; then by ready time.
  predicate Preferred(x: Option<Request>, y: Option<Request>, banks: seq<Bank>)
    requires Waiting(x) ==> x.value.place.bank < |banks|
    requires Waiting(y) ==> y.value.place.bank < |banks|
  {
    Waiting(y) ==>
      && Waiting(x)
      && (var xFree, yFree := !banks[x.value.place.bank].valid, !banks[y.value.place.bank].valid;
          (xFree && !yFree) || (xFree == yFree && NoLater(x.value.ready, y.value.ready)))
  }

  // The scan of schedule_packet returns a waiting request if there is one; one
  // whose bank is free if there is one; and among those the longest ready.
  lemma {:induction false} MinSlotIsPreferred(q: Slots, banks: seq<Bank>, best: nat, j: nat)
    requires best < j <= |q| && BanksExist(q, banks) && forall k :: 0 <= k < j ==> Preferred(q[best], q[k], banks)
    ensures forall k :: 0 <= k < |q| ==> Preferred(q[MinSlot(q, banks, best, j)], q[k], banks)
    decreases |q| - j
  {
    if j < |q| {
      var next := if SlotBefore(q[j], q[best], banks) then j else best;
      forall k | 0 <= k <= j ensures Preferred(q[next], q[k], banks) {
        if k < j { assert Preferred(q[best], q[k], banks); }
      }
      MinSlotIsPreferred(q, banks, next, j + 1);
    }
  }

  lemma {:induction false} SchedulesPreferred(c: Chan)
    requires Linked(c)
    ensures BanksExist(Queue(c, c.writeMode), c.banks)
    ensures var q := Queue(c, c.writeMode);
            forall k :: 0 <= k < |q| ==> Preferred(q[SchedulePacket(c)], q[k], c.banks)
  {
    LinkedOccupied(c);
    MinSlotIsPreferred(Queue(c, c.writeMode), c.banks, 0, 1);
  }

  // ------------------------------------------------------------------- cycles

  lemma {:induction false} SameWorldTrans(a: Chan, b: Chan, c: Chan)
    requires SameWorld(a, b) && SameWorld(b, c)
    ensures SameWorld(a, c)
  {
  }

  // Checks, the bus, and the write mode.
  ghost function FirstHalf(c: State): (r: Checked)
    ensures SameWorld(c, r)
  {
    var t := CollisionStep(DrainStep(c));
    SameWorldTrans(c, DrainStep(c), t);
    SameWorldTrans(c, t, SwapStep(FinishStep(t)));
    SwapStep(FinishStep(t))
  }

  // Refresh, the bus, and the banks.
  ghost function SecondHalf(c: Checked): (r: Checked)
    ensures SameWorld(c, r)
  {
    var t := PopulateStep(RefreshStep(c));
    SameWorldTrans(c, t, ServiceStep(t));
    ServiceStep(t)
  }

  // One call of DRAM_CHANNEL::operate.
  ghost function Operate(c: State): (r: Checked)
    ensures SameWorld(c, r)
  {
    SameWorldTrans(c, FirstHalf(c), SecondHalf(FirstHalf(c)));
    SecondHalf(FirstHalf(c))
  }

  // ----------------------------------------------------------------- arrivals

  lemma {:induction false} ArrivalCarried(c: Chan, f: nat, x: Request)
    requires AllCarried(c) && f < |c.rq| && c.rq[f].None?
    ensures forall k :: 0 <= k < |c.accepted| ==> Carried(c.rq[f := Some(x)], c.out, c.accepted[k])
  {
    forall k | 0 <= k < |c.accepted| ensures Carried(c.rq[f := Some(x)], c.out, c.accepted[k]) {
      var a := c.accepted[k];
      assert Carried(c.rq, c.out, a);
      if i :| 0 <= i < |c.rq| && SlotCarries(c.rq[i], a) { assert SlotCarries(c.rq[f := Some(x)][i], a); }
    }
  }

  lemma {:induction false} AcceptedLinked(c: Chan, accepted: seq<Accepted>)
    requires Linked(c)
    ensures Linked(c.(accepted := accepted))
  {
    var r := c.(accepted := accepted);
    forall b | 0 <= b < |r.banks| ensures BankOk(r, b) { assert BankOk(c, b); }
    forall v, j | 0 <= j < |Queue(r, v)| ensures SlotOk(r, v, j) { assert SlotOk(c, v, j); }
  }

  lemma {:induction false} AddReadCarried(c: Chan, addr: nat, place: Place, deps: seq<nat>, ret: Option<nat>)
    requires AllCarried(c)
    ensures AllCarried(AddRead(c, addr, place, deps, ret).0)
  {
    var f := FirstFree(c.rq);
    if f < |c.rq| {
      var x := NewRequest(addr, place, c.now, deps, if ret.Some? then [ret.value] else []);
      ArrivalCarried(c, f, x);
      if ret.Some? {
        assert SlotCarries(c.rq[f := Some(x)][f], Accepted(ret.value, place.block, deps, |c.out|));
      }
    }
  }

  lemma {:induction false} AddReadQueues(c: Chan, addr: nat, place: Place, deps: seq<nat>, ret: Option<nat>)
    requires CheckedDistinct(c.rq) && SortedLists(c.rq) && Sorted(deps)
    ensures var r := AddRead(c, addr, place, deps, ret).0; CheckedDistinct(r.rq) && SortedLists(r.rq)
  {
  }

  lemma {:induction false} AddReadLinked(c: Chan, addr: nat, place: Place, deps: seq<nat>, ret: Option<nat>)
    requires Linked(c) && place.bank < |c.banks| && place.group < |c.groupReady|
    ensures Linked(AddRead(c, addr, place, deps, ret).0)
  {
    var f := FirstFree(c.rq);
    if f < |c.rq| {
      var x := NewRequest(addr, place, c.now, deps, if ret.Some? then [ret.value] else []);
      FillSlot(c, false, f, x);
      AcceptedLinked(c.(rq := c.rq[f := Some(x)]), AddRead(c, addr, place, deps, ret).0.accepted);
    }
  }

  ghost function AddReadStep(c: State, addr: nat, place: Place, deps: seq<nat>, ret: Option<nat>): (r: State)
    requires place.bank < |c.banks| && place.group < |c.groupReady| && Sorted(deps)
    ensures r == AddRead(c, addr, place, deps, ret).0
  {
    AddReadLinked(c, addr, place, deps, ret);
    AddReadQueues(c, addr, place, deps, ret);
    AddReadCarried(c, addr, place, deps, ret);
    AddRead(c, addr, place, deps, ret).0
  }

  lemma {:induction false} AddWriteLinked(c: Chan, addr: nat, place: Place, deps: seq<nat>)
    requires Linked(c) && place.bank < |c.banks| && place.group < |c.groupReady|
    ensures Linked(AddWrite(c, addr, place, deps).0)
  {
    var f := FirstFree(c.wq);
    if f < |c.wq| {
      var x := NewRequest(addr, place, c.now, deps, []);
      FillSlot(c, true, f, x);
      TakenLinked(c.(wq := c.wq[f := Some(x)]), AddWrite(c, addr, place, deps).0.taken);
    }
  }

  lemma {:induction false} TakenLinked(c: Chan, taken: seq<Taken>)
    requires Linked(c)
    ensures Linked(c.(taken := taken))
  {
    var r := c.(taken := taken);
    forall b | 0 <= b < |r.banks| ensures BankOk(r, b) { assert BankOk(c, b); }
    forall v, j | 0 <= j < |Queue(r, v)| ensures SlotOk(r, v, j) { assert SlotOk(c, v, j); }
  }

  lemma {:induction false} AddWriteWritten(c: Chan, addr: nat, place: Place, deps: seq<nat>)
    requires AllWritten(c)
    ensures AllWritten(AddWrite(c, addr, place, deps).0)
  {
    var f := FirstFree(c.wq);
    var r := AddWrite(c, addr, place, deps).0;
    if f < |c.wq| {
      forall k | 0 <= k < |r.taken| ensures Written(r.wq, r.done, r.taken[k]) {
        if k < |c.taken| {
          assert Written(c.wq, c.done, c.taken[k]);
          if i :| 0 <= i < |c.wq| && Collides(c.wq[i], c.taken[k].block) { assert Collides(r.wq[i], c.taken[k].block); }
        } else {
          assert Collides(r.wq[f], place.block);
        }
      }
    }
  }

  ghost function AddWriteStep(c: State, addr: nat, place: Place, deps: seq<nat>): (r: State)
    requires place.bank < |c.banks| && place.group < |c.groupReady|
    ensures r == AddWrite(c, addr, place, deps).0
  {
    AddWriteLinked(c, addr, place, deps);
    AddWriteWritten(c, addr, place, deps);
    AddWrite(c, addr, place, deps).0
  }

  ghost function TickStep(c: State, dt: nat, endWarmup: bool): (r: State)
    ensures r == c.(now := c.now + dt, warmup := c.warmup && !endWarmup)
  {
    var r := c.(now := c.now + dt, warmup := c.warmup && !endWarmup);
    TickLinked(c, r);
    r
  }

  lemma {:induction false} TickLinked(c: Chan, r: Chan)
    requires Linked(c) && r == c.(now := r.now, warmup := r.warmup)
    ensures Linked(r)
  {
    forall b | 0 <= b < |r.banks| ensures BankOk(r, b) { assert BankOk(c, b); }
    forall v, j | 0 <= j < |Queue(r, v)| ensures SlotOk(r, v, j) { assert SlotOk(c, v, j); }
  }

  // -------------------------------------------------------------------- runs

  // A request arriving from above, or one clock cycle of the channel.
  datatype Event =
    | Read(addr: nat, deps: seq<nat>, ret: Option<nat>)
    | Write(addr: nat, deps: seq<nat>)
    | Cycle(dt: nat, endWarmup: bool)

  // Requests come with their dependents in order.
  predicate Sane(e: Event) {
    e.Read? ==> Sorted(e.deps)
  }

  predicate FitsGeometry(g: Geometry, c: Chan) {
    g.HasBanks() && |c.banks| == BankCount(g) && |c.groupReady| == Pow2(g.rank) * Pow2(g.bankgroup)
  }

  ghost function Step(g: Geometry, c: State, e: Event): (r: State)
    requires FitsGeometry(g, c) && Sane(e)
    ensures FitsGeometry(g, r)
  {
    match e
    case Read(addr, deps, ret) => AddReadStep(c, addr, PlaceOf(g, addr), deps, ret)
    case Write(addr, deps) => AddWriteStep(c, addr, PlaceOf(g, addr), deps)
    case Cycle(dt, endWarmup) => Operate(TickStep(c, dt, endWarmup))
  }

  ghost function Run(g: Geometry, c: State, es: seq<Event>): (r: State)
    requires FitsGeometry(g, c) && forall i :: 0 <= i < |es| ==> Sane(es[i])
    ensures FitsGeometry(g, r)
  {
    if es == [] then c else Step(g, Run(g, c, es[..|es| - 1]), es[|es| - 1])
  }

  ghost function Reached(g: Geometry, t: Timing, rqSize: nat, wqSize: nat, es: seq<Event>): (r: State)
    requires g.HasBanks() && rqSize > 0 && wqSize > 0 && forall i :: 0 <= i < |es| ==> Sane(es[i])
  {
    CountPositive(g);
    StartInv(t, BankCount(g), Pow2(g.rank) * Pow2(g.bankgroup), rqSize, wqSize);
    Run(g, Start(t, BankCount(g), Pow2(g.rank) * Pow2(g.bankgroup), rqSize, wqSize), es)
  }

  lemma {:induction false} CountPositive(g: Geometry)
    ensures BankCount(g) > 0
  {
    MulMono(0, Pow2(g.rank), Pow2(g.bank));
    MulMono(0, Pow2(g.rank) * Pow2(g.bank), Pow2(g.bankgroup));
  }

  // ------------------------------------------------------------- main theorems

  // Each request is at the place of its address.
  predicate InPlace(g: Geometry, q: Slots)
    requires g.HasBanks()
  {
    forall i :: 0 <= i < |q| && q[i].Some? ==> q[i].value.place == PlaceOf(g, q[i].value.addr)
  }

  lemma {:induction false} KeptInPlace(g: Geometry, x: Slots, y: Slots)
    requires g.HasBanks() && InPlace(g, x) && Kept(x, y)
    ensures InPlace(g, y)
  {
  }

  lemma {:induction false} StepInPlace(g: Geometry, c: State, e: Event)
    requires FitsGeometry(g, c) && Sane(e) && InPlace(g, c.wq) && InPlace(g, c.rq)
    ensures InPlace(g, Step(g, c, e).wq) && InPlace(g, Step(g, c, e).rq)
  {
    if e.Cycle? {
      KeptInPlace(g, c.wq, Step(g, c, e).wq);
      KeptInPlace(g, c.rq, Step(g, c, e).rq);
    }
  }

  lemma {:induction false} RunInPlace(g: Geometry, c: State, es: seq<Event>)
    requires FitsGeometry(g, c) && InPlace(g, c.wq) && InPlace(g, c.rq) && forall i :: 0 <= i < |es| ==> Sane(es[i])
    ensures InPlace(g, Run(g, c, es).wq) && InPlace(g, Run(g, c, es).rq)
  {
    if es != [] {
      RunInPlace(g, c, es[..|es| - 1]);
      StepInPlace(g, Run(g, c, es[..|es| - 1]), es[|es| - 1]);
    }
  }

  lemma {:induction false} ReachedInPlace(g: Geometry, t: Timing, rqSize: nat, wqSize: nat, es: seq<Event>)
    requires g.HasBanks() && rqSize > 0 && wqSize > 0 && forall i :: 0 <= i < |es| ==> Sane(es[i])
    ensures var c := Reached(g, t, rqSize, wqSize, es); InPlace(g, c.wq) && InPlace(g, c.rq)
  {
    CountPositive(g);
    StartInv(t, BankCount(g), Pow2(g.rank) * Pow2(g.bankgroup), rqSize, wqSize);
    RunInPlace(g, Start(t, BankCount(g), Pow2(g.rank) * Pow2(g.bankgroup), rqSize, wqSize), es);
  }

  // In every reachable state: valid banks and scheduled slots correspond one to
  // one, each slot to the bank of its address; scheduled slots have passed the
  // collision check; a valid bank is not refreshing, and unless it is on the bus
  // it serves the current mode.
  lemma {:induction false} BankStateMachine(g: Geometry, t: Timing, rqSize: nat, wqSize: nat, es: seq<Event>, w: bool, i: nat, b: nat)
    requires g.HasBanks() && rqSize > 0 && wqSize > 0 && forall i :: 0 <= i < |es| ==> Sane(es[i])
    requires var c := Reached(g, t, rqSize, wqSize, es); i < |Queue(c, w)| && b < |c.banks|
    ensures var c := Reached(g, t, rqSize, wqSize, es);
            var slot, bank := Queue(c, w)[i], c.banks[b];
            && ((bank.valid && bank.pkt == Pkt(w, i)) <==> (slot.Some? && slot.value.scheduled && slot.value.place.bank == b))
            && (bank.valid ==> bank.pkt.index < |Queue(c, bank.pkt.write)| && !bank.underRefresh)
            && (bank.valid && c.active != Some(b) ==> bank.pkt.write == c.writeMode)
            && (slot.Some? && slot.value.scheduled ==> slot.value.checked)
            && (slot.Some? ==> slot.value.place == PlaceOf(g, slot.value.addr))
  {
    var c := Reached(g, t, rqSize, wqSize, es);
    ReachedInPlace(g, t, rqSize, wqSize, es);
    OneToOne(c, w, i, b);
    assert BankOk(c, b) && SlotOk(c, w, i);
  }

  // No accepted read is lost: its return queue and all its dependents are in a
  // read slot of its block, or in a response pushed since it was accepted.
  lemma {:induction false} NoReadLost(g: Geometry, t: Timing, rqSize: nat, wqSize: nat, es: seq<Event>, k: nat)
    requires g.HasBanks() && rqSize > 0 && wqSize > 0 && forall i :: 0 <= i < |es| ==> Sane(es[i])
    requires k < |Reached(g, t, rqSize, wqSize, es).accepted|
    ensures var c := Reached(g, t, rqSize, wqSize, es); Carried(c.rq, c.out, c.accepted[k])
  {
    var c := Reached(g, t, rqSize, wqSize, es);
    assert AllCarried(c);
  }

  // No accepted write is lost: a write of its block is queued, or one has been done
  // since it was accepted.
  lemma {:induction false} NoWriteLost(g: Geometry, t: Timing, rqSize: nat, wqSize: nat, es: seq<Event>, k: nat)
    requires g.HasBanks() && rqSize > 0 && wqSize > 0 && forall i :: 0 <= i < |es| ==> Sane(es[i])
    requires k < |Reached(g, t, rqSize, wqSize, es).taken|
    ensures var c := Reached(g, t, rqSize, wqSize, es);
            var w := c.taken[k];
            || (exists i :: 0 <= i < |c.wq| && c.wq[i].Some? && c.wq[i].value.place.block == w.block)
            || (exists j :: w.since <= j < |c.done| && c.done[j] == w.block)
  {
    var c := Reached(g, t, rqSize, wqSize, es);
    assert Written(c.wq, c.done, c.taken[k]);
    if Holding(c.wq, c.taken[k].block) {
      var i :| 0 <= i < |c.wq| && Collides(c.wq[i], c.taken[k].block);
      assert c.wq[i].Some? && c.wq[i].value.place.block == c.taken[k].block;
    }
  }

  // After every cycle the occupied slots of each queue hold pairwise distinct blocks.
  lemma {:induction false} CycleLeavesDistinct(c: State, w: bool, i: nat, j: nat)
    requires var q := Queue(Operate(c), w); i < |q| && j < |q| && i != j && q[i].Some? && q[j].Some?
    ensures var q := Queue(Operate(c), w); q[i].value.place.block != q[j].value.place.block
  {
    BlocksDistinct(Queue(Operate(c), w), i, j);
  }

  lemma {:induction false} ReleaseKeepsRefresh(c: Chan, k: nat, b: nat)
    requires k <= |c.banks| && PacketsOccupied(c) && b < |c.banks|
    ensures ReleaseFrom(c, k).banks[b].needRefresh == c.banks[b].needRefresh
    decreases |c.banks| - k
  {
    if k < |c.banks| { ReleaseKeepsRefresh(ReleaseTurn(c, k), k + 1, b); }
  }

  lemma {:induction false} FirstHalfKeepsRefresh(c: State, b: nat)
    requires b < |c.banks|
    ensures FirstHalf(c).banks[b].needRefresh == c.banks[b].needRefresh
  {
    var t := FinishStep(CollisionStep(DrainStep(c)));
    LinkedOccupied(t);
    ReleaseKeepsRefresh(t, 0, b);
  }

  // A refresh that is due when banks are scheduled is still owed, or under way,
  // once they have been serviced.
  lemma {:induction false} SecondHalfKeepsRefresh(c: Checked, b: nat)
    requires b < |c.banks| && c.banks[b].needRefresh
    ensures SecondHalf(c).banks[b].needRefresh || SecondHalf(c).banks[b].underRefresh
  {
    var s1 := RefreshStep(c);
    var s2 := PopulateStep(s1);
    assert s1.banks[b].needRefresh || s1.banks[b].underRefresh;
    assert s2.banks[b].needRefresh == s1.banks[b].needRefresh && s2.banks[b].underRefresh == s1.banks[b].underRefresh;
    assert s2.banks[b].needRefresh ==> s2.banks[b].valid;
  }

  lemma {:induction false} StepKeepsRefresh(g: Geometry, c: State, e: Event, b: nat)
    requires FitsGeometry(g, c) && Sane(e) && b < |c.banks| && c.banks[b].needRefresh
    ensures var r := Step(g, c, e); r.banks[b].needRefresh || r.banks[b].underRefresh
  {
    if e.Cycle? {
      var t := TickStep(c, e.dt, e.endWarmup);
      FirstHalfKeepsRefresh(t, b);
      SecondHalfKeepsRefresh(FirstHalf(t), b);
    }
  }

  // The bank was under refresh at the start, at the end, or after some step in between.
  ghost predicate Refreshed(g: Geometry, c: State, es: seq<Event>, b: nat)
    requires FitsGeometry(g, c) && (forall i :: 0 <= i < |es| ==> Sane(es[i])) && b < |c.banks|
  {
    Run(g, c, es).banks[b].underRefresh || (es != [] && Refreshed(g, c, es[..|es| - 1], b))
  }

  // A refresh that is due is never dropped, whatever arrives and however long it
  // takes: it stays due until the bank has been under refresh.
  lemma {:induction false} RefreshNotDropped(g: Geometry, c: State, es: seq<Event>, b: nat)
    requires FitsGeometry(g, c) && (forall i :: 0 <= i < |es| ==> Sane(es[i]))
    requires b < |c.banks| && c.banks[b].needRefresh
    ensures Run(g, c, es).banks[b].needRefresh || Refreshed(g, c, es, b)
  {
    hide Step, BankCount, Inv;
    if es != [] {
      var n := |es| - 1;
      RefreshNotDropped(g, c, es[..n], b);
      var t := Run(g, c, es[..n]);
      if t.banks[b].needRefresh { StepKeepsRefresh(g, t, es[n], b); }
    }
  }
}
