// One DRAM channel (champsim/src/dram_controller.cc): two queues of optional
// slots, the banks that serve them, the data bus, refresh, and the collision
// checks that remove duplicates.
module DramChannel {
  import opened Prelude
  import opened Bits
  import opened DramMapping
  import opened SetUnion

  // Everything the channel derives from an address.
  datatype Place = Place(block: nat, bank: nat, group: nat, row: nat)

  function PlaceOf(g: Geometry, a: nat): (p: Place)
    requires g.HasBanks()
    ensures p.bank < BankCount(g) && p.group < Pow2(g.rank) * Pow2(g.bankgroup)
  {
    BankIndexInRange(g, a);
    Place(Shr(a, g.offset), BankIndex(g, a), BankgroupIndex(g, a), Raw(g, a, ROW).value)
  }

  // ready == None stands for time_point::max(). `rets` are the return queues and
  // `deps` the instructions that wait for the data.
  datatype Request = Request(addr: nat, place: Place, checked: bool, scheduled: bool, ready: Option<int>,
                             deps: seq<nat>, rets: seq<nat>)

  type Slots = seq<Option<Request>>

  // An iterator into one of the two queues.
  datatype Pkt = Pkt(write: bool, index: nat)

  datatype Bank = Bank(valid: bool, rowHit: bool, needRefresh: bool, underRefresh: bool, openRow: Option<nat>,
                       ready: int, pkt: Pkt)

  datatype Response = Response(to: nat, addr: nat, block: nat, deps: seq<nat>)

  // A read that asked for a response, as it was accepted, after `since` responses.
  datatype Accepted = Accepted(ret: nat, block: nat, deps: seq<nat>, since: nat)

  // A write as it was accepted, after `since` writes had been done.
  datatype Taken = Taken(block: nat, since: nat)

  datatype Timing = Timing(tRP: nat, tRCD: nat, tCAS: nat, tRAS: nat, tREF: nat, tRFC: nat, turnAround: nat,
                           busReturn: nat, groupStall: nat, rowsPerRefresh: nat, rows: nat)

  // `out`, `accepted`, `taken` and `done` are histories: the responses pushed, the
  // reads and the writes taken, and the blocks of the writes done so far.
  datatype Chan = Chan(
    t: Timing, now: int, warmup: bool, wq: Slots, rq: Slots, banks: seq<Bank>, active: Option<nat>, writeMode: bool,
    busAvailable: int, groupReady: seq<int>, lastRefresh: int, refreshRow: int,
    out: seq<Response>, accepted: seq<Accepted>, taken: seq<Taken>, done: seq<nat>)

  function Queue(c: Chan, write: bool): Slots {
    if write then c.wq else c.rq
  }

  function WithQueue(c: Chan, write: bool, q: Slots): Chan {
    if write then c.(wq := q) else c.(rq := q)
  }

  function SlotAt(c: Chan, p: Pkt): Option<Request>
    requires p.index < |Queue(c, p.write)|
  {
    Queue(c, p.write)[p.index]
  }

  // -------------------------------------------------------- collision checks

  predicate Collides(slot: Option<Request>, block: nat) {
    slot.Some? && slot.value.place.block == block
  }

  // std::find_if over positions lo to hi - 1; hi if there is no match.
  function FirstMatch(q: Slots, lo: nat, hi: nat, block: nat): (f: nat)
    requires lo <= hi <= |q|
    ensures lo <= f <= hi
    ensures f < hi ==> Collides(q[f], block)
    ensures forall k :: lo <= k < f ==> !Collides(q[k], block)
    decreases hi - lo
  {
    if lo == hi || Collides(q[lo], block) then lo else FirstMatch(q, lo + 1, hi, block)
  }

  // One turn of check_write_collision.
  function WriteTurn(wq: Slots, k: nat): (r: Slots)
    requires k < |wq|
    ensures |r| == |wq|
  {
    if wq[k].None? || wq[k].value.checked then wq
    else
      var block := wq[k].value.place.block;
      if FirstMatch(wq, 0, k, block) < k || FirstMatch(wq, k + 1, |wq|, block) < |wq| then wq[k := None]
      else wq[k := Some(wq[k].value.(checked := true))]
  }

  function CheckWrites(wq: Slots, k: nat): (r: Slots)
    requires k <= |wq|
    ensures |r| == |wq|
    decreases |wq| - k
  {
    if k == |wq| then wq else CheckWrites(WriteTurn(wq, k), k + 1)
  }

  function Respond(x: Request, n: nat): (r: seq<Response>)
    requires n <= |x.rets|
    ensures |r| == n && forall i :: 0 <= i < n ==> r[i] == Response(x.rets[i], x.addr, x.place.block, x.deps)
  {
    if n == 0 then [] else Respond(x, n - 1) + [Response(x.rets[n - 1], x.addr, x.place.block, x.deps)]
  }

  function Absorb(found: Request, x: Request): Request {
    found.(deps := Union(found.deps, x.deps), rets := Union(found.rets, x.rets))
  }

  datatype Reads = Reads(rq: Slots, out: seq<Response>)

  // One turn of check_read_collision: forward from a write, or merge with an
  // older or a younger read of the block, or mark as checked.
  function ReadTurn(wq: Slots, r: Reads, k: nat): (r': Reads)
    requires k < |r.rq|
    ensures |r'.rq| == |r.rq|
  {
    if r.rq[k].None? || r.rq[k].value.checked then r
    else
      var x := r.rq[k].value;
      var before := FirstMatch(r.rq, 0, k, x.place.block);
      var after := FirstMatch(r.rq, k + 1, |r.rq|, x.place.block);
      if FirstMatch(wq, 0, |wq|, x.place.block) < |wq| then
        Reads(r.rq[k := None], r.out + Respond(x, |x.rets|))
      else if before < k then
        Reads(r.rq[before := Some(Absorb(r.rq[before].value, x))][k := None], r.out)
      else if after < |r.rq| then
        Reads(r.rq[after := Some(Absorb(r.rq[after].value, x))][k := None], r.out)
      else
        Reads(r.rq[k := Some(x.(checked := true))], r.out)
  }

  function CheckReads(wq: Slots, r: Reads, k: nat): (r': Reads)
    requires k <= |r.rq|
    ensures |r'.rq| == |r.rq|
    decreases |r.rq| - k
  {
    if k == |r.rq| then r else CheckReads(wq, ReadTurn(wq, r, k), k + 1)
  }

  // Both collision checks.
  function CheckCollisions(c: Chan): Chan {
    var wq := CheckWrites(c.wq, 0);
    var r := CheckReads(wq, Reads(c.rq, c.out), 0);
    c.(wq := wq, rq := r.rq, out := r.out)
  }

  // During warmup everything queued is answered at once.
  function DrainReads(r: Reads, k: nat): (r': Reads)
    requires k <= |r.rq|
    ensures |r'.rq| == |r.rq|
    decreases |r.rq| - k
  {
    if k == |r.rq| then r
    else if r.rq[k].None? then DrainReads(r, k + 1)
    else DrainReads(Reads(r.rq[k := None], r.out + Respond(r.rq[k].value, |r.rq[k].value.rets|)), k + 1)
  }

  function EmptyQueue(n: nat): (q: Slots)
    ensures |q| == n && forall i :: 0 <= i < n ==> q[i] == None
  {
    seq(n, _ => None)
  }

  // The blocks of the occupied slots.
  function Blocks(q: Slots): seq<nat> {
    if q == [] then []
    else Blocks(q[..|q| - 1]) + if q[|q| - 1].Some? then [q[|q| - 1].value.place.block] else []
  }

  function Drain(c: Chan): Chan {
    if !c.warmup then c
    else
      var r := DrainReads(Reads(c.rq, c.out), 0);
      c.(rq := r.rq, wq := EmptyQueue(|c.wq|), out := r.out, done := c.done + Blocks(c.wq))
  }

  // ------------------------------------------------------------------- steps

  // The bank on the data bus refers to an occupied slot.
  predicate BusOccupied(c: Chan) {
    c.active.Some? ==>
      && c.active.value < |c.banks|
      && (var p := c.banks[c.active.value].pkt; p.index < |Queue(c, p.write)| && SlotAt(c, p).Some?)
  }

  function FinishBus(c: Chan): Chan
    requires BusOccupied(c)
  {
    if c.active.None? || c.banks[c.active.value].ready > c.now then c
    else
      var b := c.active.value;
      var p := c.banks[b].pkt;
      var x := SlotAt(c, p).value;
      WithQueue(c, p.write, Queue(c, p.write)[p.index := None])
        .(out := c.out + Respond(x, |x.rets|), done := if p.write then c.done + [x.place.block] else c.done,
          banks := c.banks[b := c.banks[b].(valid := false)], active := None)
  }

  function Occupied(q: Slots): nat {
    if q == [] then 0 else Occupied(q[..|q| - 1]) + if q[|q| - 1].Some? then 1 else 0
  }

  predicate MustSwap(c: Chan) {
    var size := |c.wq|;
    var pendingWrites, pendingReads := Occupied(c.wq), Occupied(c.rq);
    || (!c.writeMode && (pendingWrites >= size * 7 / 8 || (pendingReads == 0 && pendingWrites > 0)))
    || (c.writeMode && (pendingWrites == 0 || (pendingReads > 0 && pendingWrites < size * 6 / 8)))
  }

  // A bank other than the one on the bus gives its request back.
  function ReleaseBank(b: Bank, now: int, tCAS: nat): Bank {
    b.(openRow := if b.ready < now + tCAS then None else b.openRow, valid := false)
  }

  function ReleaseSlot(q: Slots, index: nat, now: int): (r: Slots)
    requires index < |q| && q[index].Some?
    ensures |r| == |q|
  {
    q[index := Some(q[index].value.(scheduled := false, ready := Some(now)))]
  }

  // Every bank refers to an occupied slot, if it is valid.
  predicate PacketsOccupied(c: Chan) {
    forall b :: 0 <= b < |c.banks| && c.banks[b].valid ==>
      c.banks[b].pkt.index < |Queue(c, c.banks[b].pkt.write)| && SlotAt(c, c.banks[b].pkt).Some?
  }

  function ReleaseTurn(c: Chan, k: nat): (r: Chan)
    requires k < |c.banks| && PacketsOccupied(c)
    ensures PacketsOccupied(r) && |r.banks| == |c.banks| && r.active == c.active
  {
    if c.active == Some(k) || !c.banks[k].valid then c
    else
      var p := c.banks[k].pkt;
      WithQueue(c, p.write, ReleaseSlot(Queue(c, p.write), p.index, c.now))
        .(banks := c.banks[k := ReleaseBank(c.banks[k], c.now, c.t.tCAS)])
  }

  function ReleaseFrom(c: Chan, k: nat): (r: Chan)
    requires k <= |c.banks| && PacketsOccupied(c)
    ensures |r.banks| == |c.banks| && r.active == c.active
    decreases |c.banks| - k
  {
    if k == |c.banks| then c else ReleaseFrom(ReleaseTurn(c, k), k + 1)
  }

  function TurnAround(c: Chan): Chan
    requires c.active.Some? ==> c.active.value < |c.banks|
  {
    var from := if c.active.Some? then c.banks[c.active.value].ready else c.now;
    c.(busAvailable := from + c.t.turnAround, writeMode := !c.writeMode)
  }

  function SwapWriteMode(c: Chan): Chan
    requires BusOccupied(c) && PacketsOccupied(c)
  {
    if MustSwap(c) then TurnAround(ReleaseFrom(c, 0)) else c
  }

  function RefreshBank(b: Bank, due: bool, now: int, tRFC: nat): Bank {
    var need := b.needRefresh || due;
    if need && !b.valid then b.(ready := now + tRFC, needRefresh := false, underRefresh := true)
    else if b.underRefresh && b.ready <= now then b.(needRefresh := need, underRefresh := false, openRow := None)
    else b.(needRefresh := need)
  }

  function RefreshBanks(banks: seq<Bank>, due: bool, now: int, tRFC: nat): (r: seq<Bank>)
    ensures |r| == |banks| && forall b :: 0 <= b < |banks| ==> r[b] == RefreshBank(banks[b], due, now, tRFC)
  {
    if banks == [] then []
    else RefreshBanks(banks[..|banks| - 1], due, now, tRFC) + [RefreshBank(banks[|banks| - 1], due, now, tRFC)]
  }

  function ScheduleRefresh(c: Chan): (r: Chan)
    ensures |r.banks| == |c.banks|
  {
    var due := c.now >= c.lastRefresh + c.t.tREF;
    var row := c.refreshRow + c.t.rowsPerRefresh;
    c.(lastRefresh := if due then c.now else c.lastRefresh,
       refreshRow := if !due then c.refreshRow else if row >= c.t.rows then row - c.t.rows else row,
       banks := RefreshBanks(c.banks, due, c.now, c.t.tRFC))
  }

  // The comparator of populate_dbus; it holds of any bank against an idle one.
  predicate BankBefore(x: Bank, y: Bank) {
    !y.valid || (x.valid && x.ready < y.ready)
  }

  // std::min_element from position j on.
  function MinBank(banks: seq<Bank>, best: nat, j: nat): (m: nat)
    requires best < j <= |banks|
    ensures m < |banks|
    decreases |banks| - j
  {
    if j == |banks| then best else MinBank(banks, if BankBefore(banks[j], banks[best]) then j else best, j + 1)
  }

  function PopulateBus(c: Chan): (r: Chan)
    requires c.banks != [] && PacketsOccupied(c)
    requires forall b :: 0 <= b < |c.banks| && c.banks[b].valid ==> SlotAt(c, c.banks[b].pkt).value.place.group < |c.groupReady|
    ensures |r.banks| == |c.banks|
  {
    var b := MinBank(c.banks, 0, 1);
    if c.banks[b].valid && c.banks[b].ready <= c.now && c.active.None? && c.busAvailable <= c.now then
      var group := SlotAt(c, c.banks[b].pkt).value.place.group;
      var ready := if c.groupReady[group] > c.now then c.groupReady[group] + c.t.busReturn else c.now + c.t.busReturn;
      c.(active := Some(b), banks := c.banks[b := c.banks[b].(ready := ready)],
         groupReady := c.groupReady[group := c.now + c.t.busReturn + c.t.groupStall])
    else c
  }

  predicate Waiting(slot: Option<Request>) {
    slot.Some? && !slot.value.scheduled
  }

  predicate NoLater(x: Option<int>, y: Option<int>) {
    y.None? || (x.Some? && x.value <= y.value)
  }

  // The comparator of schedule_packet; it holds of anything against a slot that is not waiting.
  predicate SlotBefore(x: Option<Request>, y: Option<Request>, banks: seq<Bank>)
    requires Waiting(x) ==> x.value.place.bank < |banks|
    requires Waiting(y) ==> y.value.place.bank < |banks|
  {
    if !Waiting(y) then true
    else if !Waiting(x) then false
    else
      var xFree, yFree := !banks[x.value.place.bank].valid, !banks[y.value.place.bank].valid;
      if xFree == yFree then NoLater(x.value.ready, y.value.ready) else xFree
  }

  predicate BanksExist(q: Slots, banks: seq<Bank>) {
    forall i :: 0 <= i < |q| && q[i].Some? ==> q[i].value.place.bank < |banks|
  }

  function MinSlot(q: Slots, banks: seq<Bank>, best: nat, j: nat): (m: nat)
    requires best < j <= |q| && BanksExist(q, banks)
    ensures m < |q|
    decreases |q| - j
  {
    if j == |q| then best else MinSlot(q, banks, if SlotBefore(q[j], q[best], banks) then j else best, j + 1)
  }

  function SchedulePacket(c: Chan): (m: nat)
    requires Queue(c, c.writeMode) != [] && BanksExist(Queue(c, c.writeMode), c.banks)
    ensures m < |Queue(c, c.writeMode)|
  {
    MinSlot(Queue(c, c.writeMode), c.banks, 0, 1)
  }

  function ServicePacket(c: Chan, m: nat): (r: Chan)
    requires m < |Queue(c, c.writeMode)| && BanksExist(Queue(c, c.writeMode), c.banks)
    ensures |r.banks| == |c.banks|
  {
    var q := Queue(c, c.writeMode);
    if q[m].None? || q[m].value.ready.None? || q[m].value.ready.value > c.now then c
    else
      var x := q[m].value;
      var b := c.banks[x.place.bank];
      if b.valid || b.underRefresh then c
      else
        var hit := b.openRow == Some(x.place.row);
        var delay := if hit then 0 else if b.openRow.Some? then c.t.tRP + c.t.tRCD else c.t.tRCD;
        WithQueue(c, c.writeMode, q[m := Some(x.(scheduled := true, ready := None))])
          .(banks := c.banks[x.place.bank :=
              Bank(true, hit, false, false, Some(x.place.row), c.now + c.t.tCAS + delay, Pkt(c.writeMode, m))])
  }

  // ------------------------------------------------------------------ arrivals

  // std::find_if_not(has_value).
  function FirstFree(q: Slots): (f: nat)
    ensures f <= |q|
    ensures f < |q| ==> q[f].None?
    ensures forall k :: 0 <= k < f ==> q[k].Some?
  {
    if q == [] || q[0].None? then 0 else 1 + FirstFree(q[1..])
  }

  function NewRequest(addr: nat, place: Place, now: int, deps: seq<nat>, rets: seq<nat>): Request {
    Request(addr, place, false, false, Some(now), deps, rets)
  }

  // MEMORY_CONTROLLER::add_rq; the result says whether there was room.
  function AddRead(c: Chan, addr: nat, place: Place, deps: seq<nat>, ret: Option<nat>): (r: (Chan, bool)) {
    var f := FirstFree(c.rq);
    if f == |c.rq| then (c, false)
    else
      var rets := if ret.Some? then [ret.value] else [];
      var taken := if ret.Some? then [Accepted(ret.value, place.block, deps, |c.out|)] else [];
      (c.(rq := c.rq[f := Some(NewRequest(addr, place, c.now, deps, rets))], accepted := c.accepted + taken), true)
  }

  function AddWrite(c: Chan, addr: nat, place: Place, deps: seq<nat>): (r: (Chan, bool)) {
    var f := FirstFree(c.wq);
    if f == |c.wq| then (c, false)
    else
      (c.(wq := c.wq[f := Some(NewRequest(addr, place, c.now, deps, []))],
          taken := c.taken + [Taken(place.block, |c.done|)]), true)
  }
}
