// What a DRAM channel keeps true: banks and scheduled slots refer to each other
// one to one, checked slots hold distinct blocks, and no read is lost.
module DramInvariant {
  import opened Prelude
  import opened Bits
  import opened DramMapping
  import opened DramChannel
  import opened SetUnion

  // ------------------------------------------------------- banks and slots

  // A valid bank serves a scheduled slot of its own; it is not refreshing; and
  // unless it is on the data bus, it belongs to the current mode.
  predicate BankOk(c: Chan, b: nat)
    requires b < |c.banks|
  {
    var k := c.banks[b];
    k.valid ==>
      && !k.underRefresh
      && k.pkt.index < |Queue(c, k.pkt.write)|
      && SlotAt(c, k.pkt).Some? && SlotAt(c, k.pkt).value.scheduled && SlotAt(c, k.pkt).value.place.bank == b
      && (c.active != Some(b) ==> k.pkt.write == c.writeMode)
  }

  // A scheduled slot has passed its collision check and is served by its bank.
  predicate SlotOk(c: Chan, w: bool, i: nat)
    requires i < |Queue(c, w)|
  {
    Queue(c, w)[i].Some? ==>
      var x := Queue(c, w)[i].value;
      && x.place.bank < |c.banks| && x.place.group < |c.groupReady|
      && (x.scheduled ==> x.checked && x.ready == None && c.banks[x.place.bank].valid && c.banks[x.place.bank].pkt == Pkt(w, i))
      && (!x.scheduled ==> x.ready.Some?)
  }

  ghost predicate Linked(c: Chan) {
    && (c.active.Some? ==> c.active.value < |c.banks| && c.banks[c.active.value].valid)
    && (forall b :: 0 <= b < |c.banks| ==> BankOk(c, b))
    && (forall w, i :: 0 <= i < |Queue(c, w)| ==> SlotOk(c, w, i))
    && c.wq != [] && c.rq != [] && c.banks != []
  }

  // Banks and scheduled slots correspond one to one.
  lemma {:induction false} OneToOne(c: Chan, w: bool, i: nat, b: nat)
    requires Linked(c) && i < |Queue(c, w)| && b < |c.banks|
    ensures (c.banks[b].valid && c.banks[b].pkt == Pkt(w, i)) <==>
            (Queue(c, w)[i].Some? && Queue(c, w)[i].value.scheduled && Queue(c, w)[i].value.place.bank == b)
  {
    assert BankOk(c, b) && SlotOk(c, w, i);
  }

  // An unscheduled slot may be emptied: no bank refers to it.
  lemma {:induction false} EmptySlot(c: Chan, w: bool, i: nat)
    requires Linked(c) && i < |Queue(c, w)| && (Queue(c, w)[i].Some? ==> !Queue(c, w)[i].value.scheduled)
    ensures Linked(WithQueue(c, w, Queue(c, w)[i := None]))
  {
    var r := WithQueue(c, w, Queue(c, w)[i := None]);
    forall b | 0 <= b < |r.banks| ensures BankOk(r, b) { assert BankOk(c, b); }
    forall v, j | 0 <= j < |Queue(r, v)| ensures SlotOk(r, v, j) { assert SlotOk(c, v, j); }
  }

  // A change that leaves place, readiness and schedule alone.
  predicate Touches(x: Request, y: Request) {
    y.place == x.place && y.scheduled == x.scheduled && y.ready == x.ready && (x.checked ==> y.checked)
  }

  lemma {:induction false} TouchSlot(c: Chan, w: bool, i: nat, y: Request)
    requires Linked(c) && i < |Queue(c, w)| && Queue(c, w)[i].Some? && Touches(Queue(c, w)[i].value, y)
    ensures Linked(WithQueue(c, w, Queue(c, w)[i := Some(y)]))
  {
    var r := WithQueue(c, w, Queue(c, w)[i := Some(y)]);
    forall b | 0 <= b < |r.banks| ensures BankOk(r, b) { assert BankOk(c, b); }
    forall v, j | 0 <= j < |Queue(r, v)| ensures SlotOk(r, v, j) { assert SlotOk(c, v, j); }
  }

  // A new request in an empty slot.
  lemma {:induction false} FillSlot(c: Chan, w: bool, i: nat, y: Request)
    requires Linked(c) && i < |Queue(c, w)| && Queue(c, w)[i].None?
    requires !y.scheduled && y.ready.Some? && y.place.bank < |c.banks| && y.place.group < |c.groupReady|
    ensures Linked(WithQueue(c, w, Queue(c, w)[i := Some(y)]))
  {
    var r := WithQueue(c, w, Queue(c, w)[i := Some(y)]);
    forall b | 0 <= b < |r.banks| ensures BankOk(r, b) { assert BankOk(c, b); }
    forall v, j | 0 <= j < |Queue(r, v)| ensures SlotOk(r, v, j) { assert SlotOk(c, v, j); }
  }

  lemma {:induction false} WriteTurnLinked(c: Chan, k: nat)
    requires Linked(c) && k < |c.wq|
    ensures Linked(c.(wq := WriteTurn(c.wq, k)))
  {
    assert SlotOk(c, true, k);
    if c.wq[k].Some? && !c.wq[k].value.checked {
      EmptySlot(c, true, k);
      TouchSlot(c, true, k, c.wq[k].value.(checked := true));
    }
  }

  lemma {:induction false} CheckWritesLinked(c: Chan, k: nat)
    requires Linked(c) && k <= |c.wq|
    ensures Linked(c.(wq := CheckWrites(c.wq, k)))
    decreases |c.wq| - k
  {
    if k < |c.wq| {
      WriteTurnLinked(c, k);
      CheckWritesLinked(c.(wq := WriteTurn(c.wq, k)), k + 1);
    }
  }

  lemma {:induction false} AbsorbLinked(c: Chan, f: nat, k: nat)
    requires Linked(c) && f < |c.rq| && k < |c.rq| && f != k && c.rq[f].Some? && c.rq[k].Some? && !c.rq[k].value.scheduled
    ensures Linked(c.(rq := c.rq[f := Some(Absorb(c.rq[f].value, c.rq[k].value))][k := None]))
  {
    var y := Absorb(c.rq[f].value, c.rq[k].value);
    TouchSlot(c, false, f, y);
    EmptySlot(c.(rq := c.rq[f := Some(y)]), false, k);
  }

  lemma {:induction false} OutLinked(c: Chan, out: seq<Response>)
    requires Linked(c)
    ensures Linked(c.(out := out))
  {
    var r := c.(out := out);
    forall b | 0 <= b < |r.banks| ensures BankOk(r, b) { assert BankOk(c, b); }
    forall v, j | 0 <= j < |Queue(r, v)| ensures SlotOk(r, v, j) { assert SlotOk(c, v, j); }
  }

  lemma {:induction false} ReadTurnLinked(c: Chan, k: nat)
    requires Linked(c) && k < |c.rq|
    ensures var r := ReadTurn(c.wq, Reads(c.rq, c.out), k); Linked(c.(rq := r.rq))
  {
    assert SlotOk(c, false, k);
    if c.rq[k].Some? && !c.rq[k].value.checked {
      var x := c.rq[k].value;
      var before := FirstMatch(c.rq, 0, k, x.place.block);
      var after := FirstMatch(c.rq, k + 1, |c.rq|, x.place.block);
      EmptySlot(c, false, k);
      TouchSlot(c, false, k, x.(checked := true));
      if before < k { AbsorbLinked(c, before, k); }
      if after < |c.rq| { AbsorbLinked(c, after, k); }
    }
  }

  lemma {:induction false} CheckReadsLinked(c: Chan, k: nat)
    requires Linked(c) && k <= |c.rq|
    ensures var r := CheckReads(c.wq, Reads(c.rq, c.out), k); Linked(c.(rq := r.rq, out := r.out))
    decreases |c.rq| - k
  {
    if k < |c.rq| {
      var r := ReadTurn(c.wq, Reads(c.rq, c.out), k);
      ReadTurnLinked(c, k);
      OutLinked(c.(rq := r.rq), r.out);
      CheckReadsLinked(c.(rq := r.rq, out := r.out), k + 1);
    }
  }

  lemma {:induction false} LinkedOccupied(c: Chan)
    requires Linked(c)
    ensures BusOccupied(c) && PacketsOccupied(c)
    ensures BanksExist(c.wq, c.banks) && BanksExist(c.rq, c.banks)
  {
    forall b | 0 <= b < |c.banks| && c.banks[b].valid
      ensures c.banks[b].pkt.index < |Queue(c, c.banks[b].pkt.write)| && SlotAt(c, c.banks[b].pkt).Some?
    {
      assert BankOk(c, b);
    }
    forall i | 0 <= i < |c.wq| && c.wq[i].Some? ensures c.wq[i].value.place.bank < |c.banks| { assert SlotOk(c, true, i); }
    forall i | 0 <= i < |c.rq| && c.rq[i].Some? ensures c.rq[i].value.place.bank < |c.banks| { assert SlotOk(c, false, i); }
  }

  // The request on the bus leaves its slot and its bank together.
  lemma {:induction false} FinishBusLinked(c: Chan)
    requires Linked(c) && BusOccupied(c)
    ensures Linked(FinishBus(c))
  {
    var r := FinishBus(c);
    if r != c {
      var p := c.banks[c.active.value].pkt;
      forall b | 0 <= b < |r.banks| ensures BankOk(r, b) {
        assert BankOk(c, b) && BankOk(c, c.active.value);
      }
      forall v, j | 0 <= j < |Queue(r, v)| ensures SlotOk(r, v, j) {
        assert SlotOk(c, v, j) && BankOk(c, c.active.value);
      }
    }
  }

  lemma {:induction false} ReleaseTurnLinked(c: Chan, k: nat)
    requires Linked(c) && k < |c.banks| && PacketsOccupied(c)
    ensures Linked(ReleaseTurn(c, k))
  {
    var r := ReleaseTurn(c, k);
    forall b | 0 <= b < |r.banks| ensures BankOk(r, b) { assert BankOk(c, b) && BankOk(c, k); }
    forall v, j | 0 <= j < |Queue(r, v)| ensures SlotOk(r, v, j) { assert SlotOk(c, v, j) && BankOk(c, k); }
  }

  // No bank before k is valid, the one on the bus aside.
  predicate ReleasedUpTo(c: Chan, k: nat) {
    k <= |c.banks| && forall b :: 0 <= b < k && c.banks[b].valid ==> c.active == Some(b)
  }

  lemma {:induction false} ReleaseFromLinked(c: Chan, k: nat)
    requires Linked(c) && PacketsOccupied(c) && ReleasedUpTo(c, k)
    ensures var r := ReleaseFrom(c, k); Linked(r) && |r.banks| == |c.banks| && ReleasedUpTo(r, |r.banks|)
    decreases |c.banks| - k
  {
    if k < |c.banks| {
      ReleaseTurnLinked(c, k);
      ReleaseFromLinked(ReleaseTurn(c, k), k + 1);
    }
  }

  // With every bank but the one on the bus released, the mode may change.
  lemma {:induction false} TurnAroundLinked(c: Chan)
    requires Linked(c) && ReleasedUpTo(c, |c.banks|)
    ensures Linked(TurnAround(c))
  {
    var r := TurnAround(c);
    forall b | 0 <= b < |r.banks| ensures BankOk(r, b) { assert BankOk(c, b); }
    forall v, j | 0 <= j < |Queue(r, v)| ensures SlotOk(r, v, j) { assert SlotOk(c, v, j); }
  }

  lemma {:induction false} ScheduleRefreshLinked(c: Chan)
    requires Linked(c)
    ensures Linked(ScheduleRefresh(c))
    ensures forall b :: 0 <= b < |c.banks| && ScheduleRefresh(c).banks[b].needRefresh ==> ScheduleRefresh(c).banks[b].valid
  {
    var r := ScheduleRefresh(c);
    forall b | 0 <= b < |r.banks| ensures BankOk(r, b) { assert BankOk(c, b); }
    forall v, j | 0 <= j < |Queue(r, v)| ensures SlotOk(r, v, j) { assert SlotOk(c, v, j); }
  }

  lemma {:induction false} GroupsExist(c: Chan)
    requires Linked(c)
    ensures PacketsOccupied(c)
    ensures forall b :: 0 <= b < |c.banks| && c.banks[b].valid ==> SlotAt(c, c.banks[b].pkt).value.place.group < |c.groupReady|
  {
    LinkedOccupied(c);
    forall b | 0 <= b < |c.banks| && c.banks[b].valid
      ensures SlotAt(c, c.banks[b].pkt).value.place.group < |c.groupReady|
    {
      assert BankOk(c, b) && SlotOk(c, c.banks[b].pkt.write, c.banks[b].pkt.index);
    }
  }

  lemma {:induction false} PopulateBusLinked(c: Chan)
    requires Linked(c) && PacketsOccupied(c)
    requires forall b :: 0 <= b < |c.banks| && c.banks[b].valid ==> SlotAt(c, c.banks[b].pkt).value.place.group < |c.groupReady|
    ensures Linked(PopulateBus(c))
  {
    var r := PopulateBus(c);
    forall b | 0 <= b < |r.banks| ensures BankOk(r, b) { assert BankOk(c, b); }
    forall v, j | 0 <= j < |Queue(r, v)| ensures SlotOk(r, v, j) { assert SlotOk(c, v, j); }
  }

  // A served bank was idle, so that nothing it was waiting to do is overwritten.
  lemma {:induction false} ServicePacketLinked(c: Chan, m: nat)
    requires Linked(c) && m < |Queue(c, c.writeMode)| && BanksExist(Queue(c, c.writeMode), c.banks)
    requires Queue(c, c.writeMode)[m].Some? ==> Queue(c, c.writeMode)[m].value.checked
    ensures Linked(ServicePacket(c, m))
  {
    var r := ServicePacket(c, m);
    assert SlotOk(c, c.writeMode, m);
    forall b | 0 <= b < |r.banks| ensures BankOk(r, b) {
      assert BankOk(c, b);
    }
    forall v, j | 0 <= j < |Queue(r, v)| ensures SlotOk(r, v, j) { assert SlotOk(c, v, j); }
  }

  // ------------------------------------------------ distinct blocks, sorted lists

  predicate Vetted(slot: Option<Request>) {
    slot.Some? && slot.value.checked
  }

  predicate CheckedDistinct(q: Slots) {
    forall i, j :: 0 <= i < |q| && 0 <= j < |q| && i != j && Vetted(q[i]) && Vetted(q[j]) ==>
      q[i].value.place.block != q[j].value.place.block
  }

  predicate CheckedUpTo(q: Slots, k: nat) {
    k <= |q| && forall i :: 0 <= i < k && q[i].Some? ==> q[i].value.checked
  }

  predicate AllChecked(q: Slots) {
    CheckedUpTo(q, |q|)
  }

  predicate SortedLists(q: Slots) {
    forall i :: 0 <= i < |q| && q[i].Some? ==> Sorted(q[i].value.deps) && Sorted(q[i].value.rets)
  }

  // Occupied slots of a checked queue hold pairwise distinct blocks.
  lemma {:induction false} BlocksDistinct(q: Slots, i: nat, j: nat)
    requires CheckedDistinct(q) && AllChecked(q) && i < |q| && j < |q| && i != j && q[i].Some? && q[j].Some?
    ensures q[i].value.place.block != q[j].value.place.block
  {
    assert Vetted(q[i]) && Vetted(q[j]);
  }

  lemma {:induction false} CheckWritesDistinct(q: Slots, k: nat)
    requires CheckedDistinct(q) && CheckedUpTo(q, k)
    ensures CheckedDistinct(CheckWrites(q, k)) && AllChecked(CheckWrites(q, k))
    decreases |q| - k
  {
    if k < |q| { CheckWritesDistinct(WriteTurn(q, k), k + 1); }
  }

  lemma {:induction false} ReadTurnDistinct(wq: Slots, r: Reads, k: nat)
    requires k < |r.rq| && CheckedDistinct(r.rq) && CheckedUpTo(r.rq, k)
    ensures var r' := ReadTurn(wq, r, k); CheckedDistinct(r'.rq) && CheckedUpTo(r'.rq, k + 1)
  {
  }

  lemma {:induction false} CheckReadsDistinct(wq: Slots, r: Reads, k: nat)
    requires CheckedDistinct(r.rq) && CheckedUpTo(r.rq, k)
    ensures var r' := CheckReads(wq, r, k); CheckedDistinct(r'.rq) && AllChecked(r'.rq)
    decreases |r.rq| - k
  {
    if k < |r.rq| {
      ReadTurnDistinct(wq, r, k);
      CheckReadsDistinct(wq, ReadTurn(wq, r, k), k + 1);
    }
  }

  lemma {:induction false} ReadTurnSorted(wq: Slots, r: Reads, k: nat)
    requires k < |r.rq| && SortedLists(r.rq)
    ensures SortedLists(ReadTurn(wq, r, k).rq)
  {
    if r.rq[k].Some? {
      var x := r.rq[k].value;
      forall i | 0 <= i < |r.rq| && r.rq[i].Some?
        ensures Sorted(Union(r.rq[i].value.deps, x.deps)) && Sorted(Union(r.rq[i].value.rets, x.rets))
      {
        UnionSorted(r.rq[i].value.deps, x.deps);
        UnionSorted(r.rq[i].value.rets, x.rets);
      }
    }
  }

  // Every list handed to set_union is sorted.
  lemma {:induction false} CheckReadsSorted(wq: Slots, r: Reads, k: nat)
    requires k <= |r.rq| && SortedLists(r.rq)
    ensures SortedLists(CheckReads(wq, r, k).rq)
    decreases |r.rq| - k
  {
    if k < |r.rq| {
      ReadTurnSorted(wq, r, k);
      CheckReadsSorted(wq, ReadTurn(wq, r, k), k + 1);
    }
  }

  // -------------------------------------------------------- no read is lost

  predicate SlotCarries(slot: Option<Request>, a: Accepted) {
    slot.Some? && slot.value.place.block == a.block && a.ret in slot.value.rets && Includes(slot.value.deps, a.deps)
  }

  predicate Answers(r: Response, a: Accepted) {
    r.to == a.ret && r.block == a.block && Includes(r.deps, a.deps)
  }

  // An accepted read is in a slot of its block, with its return queue and all its
  // dependents, or a response that carries them has been pushed since.
  predicate Carried(rq: Slots, out: seq<Response>, a: Accepted) {
    && a.since <= |out|
    && ((exists i :: 0 <= i < |rq| && SlotCarries(rq[i], a)) || Answered(out, a))
  }

  predicate Answered(out: seq<Response>, a: Accepted) {
    exists j :: a.since <= j < |out| && Answers(out[j], a)
  }

  predicate AllCarried(c: Chan) {
    forall k :: 0 <= k < |c.accepted| ==> Carried(c.rq, c.out, c.accepted[k])
  }

  lemma {:induction false} RespondAnswers(x: Request, out: seq<Response>, a: Accepted)
    requires SlotCarries(Some(x), a) && a.since <= |out|
    ensures Answered(out + Respond(x, |x.rets|), a)
  {
    var i :| 0 <= i < |x.rets| && x.rets[i] == a.ret;
    var z := out + Respond(x, |x.rets|);
    assert z[|out| + i] == Respond(x, |x.rets|)[i];
    assert Answers(z[|out| + i], a);
  }

  lemma {:induction false} AnswerStays(out: seq<Response>, more: seq<Response>, a: Accepted)
    requires Answered(out, a)
    ensures Answered(out + more, a)
  {
    var j :| a.since <= j < |out| && Answers(out[j], a);
    assert (out + more)[j] == out[j];
  }

  // Emptying slot k with a response to all who wait for it loses nobody.
  lemma {:induction false} RespondKeeps(rq: Slots, out: seq<Response>, k: nat, a: Accepted)
    requires k < |rq| && rq[k].Some? && Carried(rq, out, a)
    ensures Carried(rq[k := None], out + Respond(rq[k].value, |rq[k].value.rets|), a)
  {
    var more := Respond(rq[k].value, |rq[k].value.rets|);
    if Answered(out, a) {
      AnswerStays(out, more, a);
    } else {
      var i :| 0 <= i < |rq| && SlotCarries(rq[i], a);
      if i == k {
        RespondAnswers(rq[k].value, out, a);
      } else {
        assert SlotCarries(rq[k := None][i], a);
      }
    }
  }

  lemma {:induction false} AbsorbCarries(f: Request, x: Request, a: Accepted)
    requires f.place.block == x.place.block && (SlotCarries(Some(f), a) || SlotCarries(Some(x), a))
    ensures SlotCarries(Some(Absorb(f, x)), a)
  {
    UnionIncludes(f.deps, x.deps);
    UnionIncludes(f.rets, x.rets);
  }

  // Merging slot k into slot f loses nobody.
  lemma {:induction false} AbsorbKeeps(rq: Slots, out: seq<Response>, f: nat, k: nat, a: Accepted)
    requires f < |rq| && k < |rq| && f != k && rq[f].Some? && rq[k].Some?
    requires rq[f].value.place.block == rq[k].value.place.block && Carried(rq, out, a)
    ensures Carried(rq[f := Some(Absorb(rq[f].value, rq[k].value))][k := None], out, a)
  {
    var rq' := rq[f := Some(Absorb(rq[f].value, rq[k].value))][k := None];
    if i :| 0 <= i < |rq| && SlotCarries(rq[i], a) {
      if i == f || i == k {
        AbsorbCarries(rq[f].value, rq[k].value, a);
        assert SlotCarries(rq'[f], a);
      } else {
        assert SlotCarries(rq'[i], a);
      }
    }
  }

  lemma {:induction false} MarkKeeps(rq: Slots, out: seq<Response>, k: nat, a: Accepted)
    requires k < |rq| && rq[k].Some? && Carried(rq, out, a)
    ensures Carried(rq[k := Some(rq[k].value.(checked := true))], out, a)
  {
    if i :| 0 <= i < |rq| && SlotCarries(rq[i], a) {
      assert SlotCarries(rq[k := Some(rq[k].value.(checked := true))][i], a);
    }
  }

  lemma {:induction false} ReadTurnKeeps(wq: Slots, r: Reads, k: nat, a: Accepted)
    requires k < |r.rq| && Carried(r.rq, r.out, a)
    ensures var r' := ReadTurn(wq, r, k); Carried(r'.rq, r'.out, a)
  {
    if r.rq[k].Some? && !r.rq[k].value.checked {
      var x := r.rq[k].value;
      var before := FirstMatch(r.rq, 0, k, x.place.block);
      var after := FirstMatch(r.rq, k + 1, |r.rq|, x.place.block);
      if FirstMatch(wq, 0, |wq|, x.place.block) < |wq| {
        RespondKeeps(r.rq, r.out, k, a);
      } else if before < k {
        AbsorbKeeps(r.rq, r.out, before, k, a);
      } else if after < |r.rq| {
        AbsorbKeeps(r.rq, r.out, after, k, a);
      } else {
        MarkKeeps(r.rq, r.out, k, a);
      }
    }
  }

  lemma {:induction false} CheckReadsKeeps(wq: Slots, r: Reads, k: nat, a: Accepted)
    requires k <= |r.rq| && Carried(r.rq, r.out, a)
    ensures var r' := CheckReads(wq, r, k); Carried(r'.rq, r'.out, a)
    decreases |r.rq| - k
  {
    if k < |r.rq| {
      ReadTurnKeeps(wq, r, k, a);
      CheckReadsKeeps(wq, ReadTurn(wq, r, k), k + 1, a);
    }
  }

  lemma {:induction false} DrainReadsKeeps(r: Reads, k: nat, a: Accepted)
    requires k <= |r.rq| && Carried(r.rq, r.out, a)
    ensures var r' := DrainReads(r, k); Carried(r'.rq, r'.out, a)
    decreases |r.rq| - k
  {
    if k < |r.rq| {
      if r.rq[k].None? {
        DrainReadsKeeps(r, k + 1, a);
      } else {
        RespondKeeps(r.rq, r.out, k, a);
        DrainReadsKeeps(Reads(r.rq[k := None], r.out + Respond(r.rq[k].value, |r.rq[k].value.rets|)), k + 1, a);
      }
    }
  }

  // ------------------------------------------------------- no write is lost

  predicate Holding(q: Slots, block: nat) {
    exists i :: 0 <= i < |q| && Collides(q[i], block)
  }

  // A write of its block is queued, or has been done since the write was taken.
  predicate Written(wq: Slots, done: seq<nat>, w: Taken) {
    w.since <= |done| && (Holding(wq, w.block) || DoneSince(done, w))
  }

  predicate DoneSince(done: seq<nat>, w: Taken) {
    exists j :: w.since <= j < |done| && done[j] == w.block
  }

  predicate AllWritten(c: Chan) {
    forall k :: 0 <= k < |c.taken| ==> Written(c.wq, c.done, c.taken[k])
  }

  // A write gives way only to another of its block: the blocks queued stay the same.
  lemma {:induction false} WriteTurnHolds(wq: Slots, k: nat, block: nat)
    requires k < |wq|
    ensures Holding(WriteTurn(wq, k), block) <==> Holding(wq, block)
  {
    var r := WriteTurn(wq, k);
    if i :| 0 <= i < |wq| && Collides(wq[i], block) {
      var b := wq[i].value.place.block;
      var before, after := FirstMatch(wq, 0, k, b), FirstMatch(wq, k + 1, |wq|, b);
      var j := if i != k || r[k].Some? then i else if before < k then before else after;
      assert Collides(r[j], block);
    }
    if i :| 0 <= i < |r| && Collides(r[i], block) { assert Collides(wq[i], block); }
  }

  lemma {:induction false} CheckWritesHolds(wq: Slots, k: nat, block: nat)
    requires k <= |wq|
    ensures Holding(CheckWrites(wq, k), block) <==> Holding(wq, block)
    decreases |wq| - k
  {
    if k < |wq| {
      WriteTurnHolds(wq, k, block);
      CheckWritesHolds(WriteTurn(wq, k), k + 1, block);
    }
  }

  lemma {:induction false} BlocksHold(q: Slots, block: nat)
    ensures block in Blocks(q) <==> Holding(q, block)
  {
    if q != [] {
      var n := |q| - 1;
      BlocksHold(q[..n], block);
      if i :| 0 <= i < n && Collides(q[..n][i], block) { assert Collides(q[i], block); }
      if i :| 0 <= i < |q| && Collides(q[i], block) {
        if i < n { assert Collides(q[..n][i], block); }
      }
    }
  }

  lemma {:induction false} DoneStays(done: seq<nat>, more: seq<nat>, w: Taken)
    requires DoneSince(done, w)
    ensures DoneSince(done + more, w)
  {
    var j :| w.since <= j < |done| && done[j] == w.block;
    assert (done + more)[j] == done[j];
  }

  // Doing a write does those of its block that were taken before.
  lemma {:induction false} DoingKeeps(wq: Slots, done: seq<nat>, i: nat, w: Taken)
    requires i < |wq| && wq[i].Some? && Written(wq, done, w)
    ensures Written(wq[i := None], done + [wq[i].value.place.block], w)
  {
    var z := done + [wq[i].value.place.block];
    if DoneSince(done, w) {
      DoneStays(done, [wq[i].value.place.block], w);
    } else {
      var j :| 0 <= j < |wq| && Collides(wq[j], w.block);
      if j == i { assert z[|done|] == w.block; } else { assert Collides(wq[i := None][j], w.block); }
    }
  }

  // At the end of a warmup cycle all writes count as done.
  lemma {:induction false} DrainingKeeps(wq: Slots, rest: Slots, done: seq<nat>, w: Taken)
    requires Written(wq, done, w)
    ensures Written(rest, done + Blocks(wq), w)
  {
    if DoneSince(done, w) {
      DoneStays(done, Blocks(wq), w);
    } else {
      BlocksHold(wq, w.block);
      var j :| 0 <= j < |Blocks(wq)| && Blocks(wq)[j] == w.block;
      assert (done + Blocks(wq))[|done| + j] == w.block;
    }
  }
}
