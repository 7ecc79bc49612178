// What each step of a cache keeps true of its lists, its miss registers and its
// block array.
module CacheSteps {
  import opened Prelude
  import opened SetUnion
  import opened Channels
  import opened Algorithms
  import opened CacheModel
  import opened CacheInvariant

  // -------------------------------------------------------- lists and flags

  predicate RequestOk(x: Request) {
    (!x.translated ==> x.addr == x.vaddr) && Sorted(x.deps)
  }

  predicate LookupOk(x: Lookup) {
    Plain(x) && Sorted(x.deps) && Sorted(x.rets) && (x.fromThis ==> x.rets == [] && x.kind.Prefetch?)
  }

  predicate EntryOk(e: Entry) {
    Sorted(e.deps) && Sorted(e.rets)
  }

  predicate RequestsOk(q: seq<Request>) {
    forall i :: 0 <= i < |q| ==> RequestOk(q[i])
  }

  predicate LookupsOk(q: seq<Lookup>) {
    forall i :: 0 <= i < |q| ==> LookupOk(q[i])
  }

  predicate EntriesOk(q: seq<Entry>) {
    forall i :: 0 <= i < |q| ==> EntryOk(q[i])
  }

  predicate QueuesOk(qs: Queues) {
    RequestsOk(qs.wq) && RequestsOk(qs.rq) && RequestsOk(qs.pq)
  }

  predicate UppersOk(uppers: seq<Queues>) {
    forall u :: 0 <= u < |uppers| ==> QueuesOk(uppers[u])
  }

  // Untranslated entries still hold their virtual address; lists handed to
  // set_union are sorted; prefetches of this cache answer nobody.
  predicate ListsOk(c: Cache) {
    UppersOk(c.uppers) && LookupsOk(c.pq) && LookupsOk(c.tags) && LookupsOk(c.stash) && EntriesOk(c.mshr) && EntriesOk(c.writes)
  }

  lemma {:induction false} MergeFromOk(q: seq<Request>, k: nat, unit: Unit)
    requires k <= |q| && RequestsOk(q)
    ensures RequestsOk(MergeFrom(q, k, unit))
    decreases |q| - k
  {
    if k < |q| {
      var f := Collision(q, k, q[k], unit);
      if f < k {
        UnionSorted(q[f].deps, q[k].deps);
        MergeFromOk(MergeInto(q, f, k), k, unit);
      } else {
        MergeFromOk(MarkChecked(q, k), k + 1, unit);
      }
    }
  }

  lemma {:induction false} MergeIntoOk(q: seq<Request>, f: nat, k: nat)
    requires f < k < |q| && RequestsOk(q)
    ensures RequestsOk(MergeInto(q, f, k))
  {
    UnionSorted(q[f].deps, q[k].deps);
  }

  lemma {:induction false} ReadFromOk(wq: seq<Request>, r: Read, k: nat, writeUnit: Unit, readUnit: Unit, to: nat)
    requires k <= |r.q| && RequestsOk(r.q)
    ensures RequestsOk(ReadFrom(wq, r, k, writeUnit, readUnit, to).q)
    decreases |r.q| - k
  {
    if k < |r.q| {
      var x := r.q[k];
      var f := Collision(r.q, k, x, readUnit);
      if Collision(wq, |wq|, x, writeUnit) < |wq| {
        ReadFromOk(wq, Read(Erase(r.q, k), r.out + Forward(x, to)), k, writeUnit, readUnit, to);
      } else if f < k {
        MergeIntoOk(r.q, f, k);
        ReadFromOk(wq, Read(MergeInto(r.q, f, k), r.out), k, writeUnit, readUnit, to);
      } else {
        ReadFromOk(wq, Read(MarkChecked(r.q, k), r.out), k + 1, writeUnit, readUnit, to);
      }
    }
  }

  lemma {:induction false} CheckUpperLists(c: Cache, u: nat)
    requires u < |c.uppers| && ListsOk(c)
    ensures ListsOk(CheckUpper(c, u))
  {
    var qs := c.uppers[u];
    assert QueuesOk(qs);
    var unit: Unit := if c.cfg.matchOffset then 1 else c.cfg.block;
    var wq := MergeFrom(qs.wq, FirstUnchecked(qs.wq), unit);
    MergeFromOk(qs.wq, FirstUnchecked(qs.wq), unit);
    ReadFromOk(wq, Read(qs.rq, c.out), FirstUnchecked(qs.rq), unit, c.cfg.block, u);
    var rq := ReadFrom(wq, Read(qs.rq, c.out), FirstUnchecked(qs.rq), unit, c.cfg.block, u);
    ReadFromOk(wq, Read(qs.pq, rq.out), FirstUnchecked(qs.pq), unit, c.cfg.block, u);
  }

  lemma {:induction false} FilterOk(q: seq<Lookup>, p: Lookup -> bool)
    requires LookupsOk(q)
    ensures LookupsOk(Filter(q, p))
  {
    forall i | 0 <= i < |Filter(q, p)| ensures LookupOk(Filter(q, p)[i]) { FilterMember(q, p, Filter(q, p)[i]); }
  }

  lemma {:induction false} TranslationLists(c: Cache, p: Page)
    requires PageBytes(c.cfg) > 0 && ListsOk(c)
    ensures ListsOk(FinishTranslation(c, p))
  {
    var k := FirstUntranslated(c.stash);
    var matches := (x: Lookup) => PageBytes(c.cfg) > 0 && OnPage(c.cfg, x, p.vpage);
    FilterOk(c.stash[k..], matches);
    FilterOk(c.stash[k..], Not(matches));
  }

  lemma {:induction false} MergeOk(e: Entry, s: Entry)
    requires EntryOk(e) && EntryOk(s)
    ensures EntryOk(Merge(e, s))
  {
    UnionSorted(e.deps, s.deps);
    UnionSorted(e.rets, s.rets);
  }

  lemma {:induction false} MissLists(c: Cache, x: Lookup, accepted: bool)
    requires ListsOk(c) && LookupOk(x)
    ensures ListsOk(DoMiss(c, x, accepted).0)
  {
    var m := FindEntry(c.mshr, x.addr, c.cfg.block);
    if m < |c.mshr| { MergeOk(c.mshr[m], Allocate(x)); }
  }

  // ------------------------------------------------------------ miss registers

  predicate DistinctEntries(cfg: Config, q: seq<Entry>) {
    forall i, j :: 0 <= i < j < |q| ==> !Same(q[i].addr, q[j].addr, cfg.block)
  }

  // Returned entries come first, in order of readiness.
  predicate InOrder(q: seq<Entry>) {
    forall i, j :: 0 <= i < j < |q| && q[j].promise.Some? ==> q[i].promise.Some? && q[i].promise.value <= q[j].promise.value
  }

  predicate Promised(q: seq<Entry>, horizon: int) {
    forall i :: 0 <= i < |q| && q[i].promise.Some? ==> q[i].promise.value <= horizon
  }

  // Blocks of the entries that have no data yet.
  function Unreturned(cfg: Config, q: seq<Entry>): multiset<nat> {
    if q == [] then multiset{}
    else Unreturned(cfg, q[..|q| - 1]) + if q[|q| - 1].promise.None? then multiset{BlockOf(cfg, q[|q| - 1].addr)} else multiset{}
  }

  predicate MshrOk(c: Cache) {
    && DistinctEntries(c.cfg, c.mshr) && |c.mshr| <= c.cfg.mshrSize
    && InOrder(c.mshr) && Promised(c.mshr, c.now + Latency(c, c.cfg.fillLatency))
    && c.asked == Unreturned(c.cfg, c.mshr)
  }

  // Writes are ready in order; a cache that treats writes like reads has none.
  predicate WritesOk(c: Cache) {
    && (forall i :: 0 <= i < |c.writes| ==> c.writes[i].promise.Some?)
    && InOrder(c.writes) && Promised(c.writes, c.now + Latency(c, c.cfg.fillLatency))
    && (c.cfg.matchOffset ==> c.writes == [])
  }

  // Entries that are due form a prefix: none waits behind one that is not due.
  lemma {:induction false} DueFirst(q: seq<Entry>, now: int, i: nat, j: nat)
    requires InOrder(q) && i < j < |q| && DueAt(q[j], now)
    ensures DueAt(q[i], now)
  {
  }

  lemma {:induction false} UnreturnedMember(cfg: Config, q: seq<Entry>, b: nat)
    requires b in Unreturned(cfg, q)
    ensures exists i :: 0 <= i < |q| && q[i].promise.None? && BlockOf(cfg, q[i].addr) == b
  {
    var n := |q| - 1;
    if !(q[n].promise.None? && BlockOf(cfg, q[n].addr) == b) {
      UnreturnedMember(cfg, q[..n], b);
      var i :| 0 <= i < n && q[..n][i].promise.None? && BlockOf(cfg, q[..n][i].addr) == b;
      assert q[i].promise.None?;
    }
  }

  lemma {:induction false} UnreturnedSame(cfg: Config, x: seq<Entry>, y: seq<Entry>)
    requires |x| == |y|
    requires forall i :: 0 <= i < |x| ==> Same(x[i].addr, y[i].addr, cfg.block) && x[i].promise.Some? == y[i].promise.Some?
    ensures Unreturned(cfg, x) == Unreturned(cfg, y)
  {
    if x != [] { UnreturnedSame(cfg, x[..|x| - 1], y[..|y| - 1]); }
  }

  // The same, counted block by block.
  function Pending(cfg: Config, q: seq<Entry>, b: nat): nat {
    if q == [] then 0
    else Pending(cfg, q[..|q| - 1], b) + if q[|q| - 1].promise.None? && BlockOf(cfg, q[|q| - 1].addr) == b then 1 else 0
  }

  lemma {:induction false} UnreturnedMulti(cfg: Config, q: seq<Entry>)
    ensures forall b: nat :: Unreturned(cfg, q)[b] == Pending(cfg, q, b)
  {
    if q != [] { UnreturnedMulti(cfg, q[..|q| - 1]); }
  }

  lemma {:induction false} PendingUpdate(cfg: Config, q: seq<Entry>, i: nat, e: Entry, b: nat)
    requires i < |q|
    ensures Pending(cfg, q[i := e], b) + (if q[i].promise.None? && BlockOf(cfg, q[i].addr) == b then 1 else 0)
         == Pending(cfg, q, b) + (if e.promise.None? && BlockOf(cfg, e.addr) == b then 1 else 0)
  {
    var n := |q| - 1;
    if i < n {
      PendingUpdate(cfg, q[..n], i, e, b);
      assert q[i := e][..n] == q[..n][i := e];
    } else {
      assert q[i := e][..n] == q[..n];
    }
  }

  lemma {:induction false} UnreturnedTail(cfg: Config, q: seq<Entry>)
    requires q != [] && q[0].promise.Some?
    ensures Unreturned(cfg, q[1..]) == Unreturned(cfg, q)
  {
    var n := |q| - 1;
    if n > 0 {
      UnreturnedTail(cfg, q[..n]);
      assert q[..n][1..] == q[1..][..n - 1];
    } else {
      assert q[..0] == [];
    }
  }

  function Returned(q: seq<Entry>, m: nat, f: nat, ready: int): (r: seq<Entry>)
    requires m < |q| && f < |q|
    ensures |r| == |q|
  {
    q[m := q[f]][f := q[m].(promise := Some(ready))]
  }

  lemma {:induction false} ReturnedPending(cfg: Config, q: seq<Entry>, m: nat, f: nat, ready: int, b: nat)
    requires m < |q| && f < |q| && q[m].promise.None? && q[f].promise.None?
    ensures Pending(cfg, Returned(q, m, f, ready), b) + (if BlockOf(cfg, q[m].addr) == b then 1 else 0) == Pending(cfg, q, b)
  {
    PendingUpdate(cfg, q, m, q[f], b);
    PendingUpdate(cfg, q[m := q[f]], f, q[m].(promise := Some(ready)), b);
  }

  // A returned entry is no longer waited for; swapping does not matter.
  lemma {:induction false} ReturnedAsked(cfg: Config, q: seq<Entry>, m: nat, f: nat, ready: int)
    requires m < |q| && f < |q| && q[m].promise.None? && q[f].promise.None?
    ensures Unreturned(cfg, Returned(q, m, f, ready)) == Unreturned(cfg, q) - multiset{BlockOf(cfg, q[m].addr)}
  {
    var x, y := Unreturned(cfg, q), Unreturned(cfg, Returned(q, m, f, ready));
    UnreturnedMulti(cfg, q);
    UnreturnedMulti(cfg, Returned(q, m, f, ready));
    forall b: nat ensures y[b] + (if BlockOf(cfg, q[m].addr) == b then 1 else 0) == x[b] {
      ReturnedPending(cfg, q, m, f, ready, b);
    }
    SubtractOne(x, y, BlockOf(cfg, q[m].addr));
  }

  lemma {:induction false} SubtractOne(x: multiset<nat>, y: multiset<nat>, b: nat)
    requires forall e: nat :: y[e] + (if b == e then 1 else 0) == x[e]
    ensures y == x - multiset{b}
  {
  }

  // The entry a response is for: the only one of its block, not returned yet,
  // and not before the first unreturned one.
  lemma {:induction false} AnswerFinds(c: Cache, addr: nat)
    requires MshrOk(c) && BlockOf(c.cfg, addr) in c.asked
    ensures var m, f := FindEntry(c.mshr, addr, c.cfg.block), FirstUnreturned(c.mshr);
            f <= m < |c.mshr| && c.mshr[m].promise.None? && BlockOf(c.cfg, c.mshr[m].addr) == BlockOf(c.cfg, addr)
  {
    UnreturnedMember(c.cfg, c.mshr, BlockOf(c.cfg, addr));
    var i :| 0 <= i < |c.mshr| && c.mshr[i].promise.None? && BlockOf(c.cfg, c.mshr[i].addr) == BlockOf(c.cfg, addr);
    assert Same(c.mshr[i].addr, addr, c.cfg.block);
    var m := FindEntry(c.mshr, addr, c.cfg.block);
    assert m <= i;
    if m < i { assert Same(c.mshr[m].addr, c.mshr[i].addr, c.cfg.block); }
  }

  lemma {:induction false} ReturnedInOrder(q: seq<Entry>, m: nat, f: nat, ready: int)
    requires f <= m < |q| && f == FirstUnreturned(q) && q[m].promise.None? && InOrder(q) && Promised(q, ready)
    ensures InOrder(Returned(q, m, f, ready)) && Promised(Returned(q, m, f, ready), ready)
  {
    assert forall i :: f <= i < |q| ==> q[i].promise.None?;
  }

  // A response to a request that was asked for keeps the registers in order.
  lemma {:induction false} FinishPacketMshr(c: Cache, addr: nat)
    requires MshrOk(c) && BlockOf(c.cfg, addr) in c.asked
    ensures MshrOk(FinishPacket(c, addr)) && |FinishPacket(c, addr).mshr| == |c.mshr|
  {
    hide FindEntry, FirstUnreturned, Unreturned, InOrder, Promised, BlockOf;
    var m, f := FindEntry(c.mshr, addr, c.cfg.block), FirstUnreturned(c.mshr);
    var ready := c.now + Latency(c, c.cfg.fillLatency);
    AnswerFinds(c, addr);
    assert FinishPacket(c, addr).mshr == Returned(c.mshr, m, f, ready);
    ReturnedAsked(c.cfg, c.mshr, m, f, ready);
    ReturnedInOrder(c.mshr, m, f, ready);
  }

  lemma {:induction false} PopMshr(c: Cache, r: Cache)
    requires MshrOk(c) && c.mshr != [] && c.mshr[0].promise.Some?
    requires r == c.(mshr := c.mshr[1..], sets := r.sets, out := r.out, evicted := r.evicted)
    ensures MshrOk(r)
  {
    UnreturnedTail(c.cfg, c.mshr);
  }

  lemma {:induction false} PopWrite(c: Cache, r: Cache)
    requires WritesOk(c) && c.writes != [] && r == c.(writes := c.writes[1..], sets := r.sets, out := r.out, evicted := r.evicted)
    ensures WritesOk(r)
  {
  }

  lemma {:induction false} FillFrontMshr(c: Cache, write: bool, victim: nat, accepted: bool)
    requires ArrayShape(c) && victim <= c.cfg.numWay && MshrOk(c) && WritesOk(c)
    ensures MshrOk(FillFront(c, write, victim, accepted)) && WritesOk(FillFront(c, write, victim, accepted))
  {
    hide HandleFill;
    var r := FillFront(c, write, victim, accepted);
    if r == c {
    } else if write {
      PopWrite(c, r);
    } else {
      PopMshr(c, r);
    }
  }

  lemma {:induction false} MergeMshr(c: Cache, m: nat, e: Entry)
    requires MshrOk(c) && m < |c.mshr| && Same(c.mshr[m].addr, e.addr, c.cfg.block)
    ensures MshrOk(c.(mshr := c.mshr[m := Merge(c.mshr[m], e)]))
  {
    hide Unreturned;
    var q := c.mshr[m := Merge(c.mshr[m], e)];
    UnreturnedSame(c.cfg, c.mshr, q);
    forall i, j | 0 <= i < j < |q| ensures !Same(q[i].addr, q[j].addr, c.cfg.block) {
      assert !Same(c.mshr[i].addr, c.mshr[j].addr, c.cfg.block);
    }
  }

  lemma {:induction false} AllocateMshr(c: Cache, e: Entry)
    requires MshrOk(c) && e.promise.None? && |c.mshr| < c.cfg.mshrSize && FindEntry(c.mshr, e.addr, c.cfg.block) == |c.mshr|
    ensures MshrOk(c.(mshr := c.mshr + [e], asked := c.asked + multiset{BlockOf(c.cfg, e.addr)}))
  {
    var q := c.mshr + [e];
    assert q[..|q| - 1] == c.mshr;
  }

  lemma {:induction false} WriteMshr(c: Cache, x: Lookup)
    requires MshrOk(c) && WritesOk(c) && !c.cfg.matchOffset
    ensures MshrOk(HandleWrite(c, x)) && WritesOk(HandleWrite(c, x))
  {
  }

  lemma {:induction false} WroteMshr(c: Cache, r: Cache)
    requires MshrOk(c) && r == c.(wrote := r.wrote)
    ensures MshrOk(r)
  {
  }

  lemma {:induction false} RoomForOne(c: Cache)
    requires MshrOk(c) && |c.mshr| != c.cfg.mshrSize
    ensures |c.mshr| < c.cfg.mshrSize
  {
  }

  lemma {:induction false} HandleMissMshr(c: Cache, x: Lookup, accepted: bool)
    requires MshrOk(c)
    ensures MshrOk(HandleMiss(c, x, accepted).0)
  {
    hide MshrOk, Merge, Wrote;
    var m := FindEntry(c.mshr, x.addr, c.cfg.block);
    var r := HandleMiss(c, x, accepted).0;
    if m < |c.mshr| {
      MergeMshr(c, m, Allocate(x));
      WroteMshr(c.(mshr := r.mshr), r);
    } else if |r.mshr| > |c.mshr| {
      RoomForOne(c);
      AllocateMshr(c, Allocate(x));
      WroteMshr(c.(mshr := r.mshr, asked := r.asked), r);
    } else {
      WroteMshr(c, r);
    }
  }

  lemma {:induction false} MissMshr(c: Cache, x: Lookup, accepted: bool)
    requires MshrOk(c) && WritesOk(c)
    ensures MshrOk(DoMiss(c, x, accepted).0) && WritesOk(DoMiss(c, x, accepted).0)
  {
    if x.kind.Write? && !c.cfg.matchOffset {
      WriteMshr(c, x);
    } else {
      HandleMissMshr(c, x, accepted);
    }
  }

  // ------------------------------------------------------------ the block array

  // Way w of set s holds a block.
  predicate Holds(c: Cache, s: int, w: int) {
    0 <= s < |c.sets| && 0 <= w < |c.sets[s]| && c.sets[s][w].valid
  }

  ghost predicate Placed(c: Cache) {
    forall s, w :: Holds(c, s, w) ==> SetIndex(c.cfg, c.sets[s][w].addr) == s
  }

  // No block twice in a set.
  ghost predicate NoCopies(c: Cache) {
    forall s, v, w :: Holds(c, s, v) && Holds(c, s, w) && v != w ==>
      !Same(c.sets[s][v].addr, c.sets[s][w].addr, c.cfg.block)
  }

  // No outstanding block is in the array.
  predicate NoneOutstanding(c: Cache)
    requires ArrayShape(c)
  {
    forall i :: 0 <= i < |c.mshr| ==> !IsHit(c, c.mshr[i].addr)
  }

  ghost predicate ArrayOk(c: Cache) {
    && ArrayShape(c) && Placed(c)
    && (c.cfg.matchOffset ==> NoCopies(c) && NoneOutstanding(c))
  }

  lemma {:induction false} HitMeans(c: Cache, addr: nat)
    requires ArrayShape(c)
    ensures var s := SetIndex(c.cfg, addr);
            IsHit(c, addr) <==> exists w :: Holds(c, s, w) && Same(c.sets[s][w].addr, addr, c.cfg.block)
  {
    var s := SetIndex(c.cfg, addr);
    var w := FindWay(c.sets[s], addr, c.cfg.block);
    if w < |c.sets[s]| { assert Holds(c, s, w); }
  }

  lemma {:induction false} HitSame(c: Cache, a: nat, b: nat)
    requires ArrayShape(c) && Same(a, b, c.cfg.block)
    ensures IsHit(c, a) <==> IsHit(c, b)
  {
    HitMeans(c, a);
    HitMeans(c, b);
    var s := SetIndex(c.cfg, a);
    forall w | Holds(c, s, w) ensures Same(c.sets[s][w].addr, a, c.cfg.block) <==> Same(c.sets[s][w].addr, b, c.cfg.block) {}
  }

  // Arrays that hold the same blocks in the same ways.
  predicate SameTags(c: Cache, r: Cache) {
    && r.cfg == c.cfg && |r.sets| == |c.sets|
    && (forall s :: 0 <= s < |c.sets| ==> |r.sets[s]| == |c.sets[s]|)
    && (forall s, w :: 0 <= s < |c.sets| && 0 <= w < |c.sets[s]| ==>
          r.sets[s][w].valid == c.sets[s][w].valid && r.sets[s][w].addr == c.sets[s][w].addr)
  }

  lemma {:induction false} SameTagsHit(c: Cache, r: Cache, addr: nat)
    requires ArrayShape(c) && SameTags(c, r)
    ensures ArrayShape(r) && (IsHit(r, addr) <==> IsHit(c, addr))
  {
    HitMeans(c, addr);
    HitMeans(r, addr);
    var s := SetIndex(c.cfg, addr);
    forall w ensures Holds(r, s, w) <==> Holds(c, s, w) {}
    assert forall w :: Holds(c, s, w) ==> r.sets[s][w].addr == c.sets[s][w].addr;
  }

  lemma {:induction false} SameTagsArray(c: Cache, r: Cache)
    requires ArrayOk(c) && SameTags(c, r) && r.mshr == c.mshr
    ensures ArrayOk(r)
  {
    forall s, w ensures Holds(r, s, w) <==> Holds(c, s, w) {}
    forall addr: nat ensures ArrayShape(r) && (IsHit(r, addr) <==> IsHit(c, addr)) { SameTagsHit(c, r, addr); }
    if c.cfg.matchOffset {
      forall s, v, w | Holds(r, s, v) && Holds(r, s, w) && v != w
        ensures !Same(r.sets[s][v].addr, r.sets[s][w].addr, c.cfg.block)
      {
        assert Holds(c, s, v) && Holds(c, s, w);
      }
    }
  }

  lemma {:induction false} HitTags(c: Cache, x: Lookup)
    requires ArrayShape(c) && IsHit(c, x.addr)
    ensures SameTags(c, Hit(c, x))
  {
  }

  // What a fill leaves in the array: what was there, but for the way it took.
  lemma {:induction false} FilledHit(c: Cache, r: Cache, s: nat, w: nat, way: Way, addr: nat)
    requires ArrayShape(c) && Placed(c) && s < |c.sets| && w < |c.sets[s]| && SetIndex(c.cfg, way.addr) == s
    requires r == c.(sets := c.sets[s := c.sets[s][w := way]], mshr := r.mshr, writes := r.writes, out := r.out, evicted := r.evicted)
    ensures ArrayShape(r)
    ensures IsHit(r, addr) ==> IsHit(c, addr) || Same(addr, way.addr, c.cfg.block)
  {
    if IsHit(r, addr) {
      HitMeans(r, addr);
      var t := SetIndex(c.cfg, addr);
      var v :| Holds(r, t, v) && Same(r.sets[t][v].addr, addr, c.cfg.block);
      if !(t == s && v == w) {
        assert Holds(c, t, v);
        HitMeans(c, addr);
      }
    }
  }

  lemma {:induction false} FilledArray(c: Cache, r: Cache, s: nat, w: nat, way: Way)
    requires ArrayShape(c) && Placed(c) && s < |c.sets| && w < |c.sets[s]| && SetIndex(c.cfg, way.addr) == s
    requires r == c.(sets := c.sets[s := c.sets[s][w := way]], mshr := r.mshr, writes := r.writes, out := r.out, evicted := r.evicted)
    ensures ArrayShape(r) && Placed(r)
    ensures NoCopies(c) && !IsHit(c, way.addr) ==> NoCopies(r)
  {
    forall t, v | Holds(r, t, v) ensures SetIndex(c.cfg, r.sets[t][v].addr) == t {
      if !(t == s && v == w) { assert Holds(c, t, v); }
    }
    if NoCopies(c) && !IsHit(c, way.addr) {
      HitMeans(c, way.addr);
      forall t, u, v | Holds(r, t, u) && Holds(r, t, v) && u != v
        ensures !Same(r.sets[t][u].addr, r.sets[t][v].addr, c.cfg.block)
      {
        if !(t == s && u == w) { assert Holds(c, t, u); }
        if !(t == s && v == w) { assert Holds(c, t, v); }
      }
    }
  }

  // Filling from a register keeps the array free of copies and of outstanding blocks.
  lemma {:induction false} FillFrontArray(c: Cache, write: bool, victim: nat, accepted: bool)
    requires ArrayOk(c) && victim <= c.cfg.numWay && DistinctEntries(c.cfg, c.mshr) && WritesOk(c)
    ensures ArrayOk(FillFront(c, write, victim, accepted))
  {
    var r := FillFront(c, write, victim, accepted);
    var q := if write then c.writes else c.mshr;
    if r != c {
      var e := q[0];
      var s, w := SetIndex(c.cfg, e.addr), FillWay(c, e, victim);
      if w < c.cfg.numWay {
        var way := Way(true, e.kind.Write?, e.fromThis, e.addr);
        FilledArray(c, r, s, w, way);
        if c.cfg.matchOffset {
          forall i | 0 <= i < |r.mshr| ensures !IsHit(r, r.mshr[i].addr) {
            assert r.mshr[i] == c.mshr[i + 1];
            FilledHit(c, r, s, w, way, r.mshr[i].addr);
          }
        }
      } else {
        BypassArray(c, r);
      }
    }
  }

  lemma {:induction false} BypassArray(c: Cache, r: Cache)
    requires ArrayOk(c) && r.cfg == c.cfg && r.sets == c.sets && forall e :: e in r.mshr ==> e in c.mshr
    ensures ArrayOk(r)
  {
    forall s, w ensures Holds(r, s, w) <==> Holds(c, s, w) {}
    if c.cfg.matchOffset {
      forall i | 0 <= i < |r.mshr| ensures !IsHit(r, r.mshr[i].addr) {
        assert r.mshr[i] in c.mshr;
        var j :| 0 <= j < |c.mshr| && c.mshr[j] == r.mshr[i];
        assert !IsHit(c, c.mshr[j].addr);
      }
    }
  }

  // A miss may be outstanding: its block is not in the array.
  lemma {:induction false} MissArray(c: Cache, x: Lookup, accepted: bool)
    requires ArrayOk(c) && (c.cfg.matchOffset ==> !IsHit(c, x.addr))
    ensures ArrayOk(DoMiss(c, x, accepted).0)
  {
    var r := DoMiss(c, x, accepted).0;
    forall s, w ensures Holds(r, s, w) <==> Holds(c, s, w) {}
    if c.cfg.matchOffset {
      forall i | 0 <= i < |r.mshr| ensures !IsHit(r, r.mshr[i].addr) {
        if i < |c.mshr| {
          HitSame(c, c.mshr[i].addr, r.mshr[i].addr);
        }
      }
    }
  }
}
