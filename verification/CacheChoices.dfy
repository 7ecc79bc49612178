// Which lookups and entries a cache takes in one step, and when: only what is due,
// in order and as far as the bandwidth and its room reach, and never before its
// latency has passed.
module CacheChoices {
  import opened Prelude
  import opened SetUnion
  import opened Channels
  import opened Algorithms
  import opened CacheModel
  import opened CacheInvariant
  import opened CacheSteps
  import opened CacheRuns

  // --------------------------------------------------------------- tag checks

  // The lookups whose block is not in the array, in order.
  function Absent(c: Cache, q: seq<Lookup>): (r: seq<Lookup>)
    requires ArrayShape(c)
    ensures |r| <= |q|
  {
    if q == [] then [] else (if IsHit(c, q[0].addr) then [] else [q[0]]) + Absent(c, q[1..])
  }

  lemma {:induction false} AbsentHead(c: Cache, q: seq<Lookup>)
    requires ArrayShape(c)
    ensures q == [] ==> Absent(c, q) == []
    ensures q != [] && IsHit(c, q[0].addr) ==> Absent(c, q) == Absent(c, q[1..])
    ensures q != [] && !IsHit(c, q[0].addr) ==> Absent(c, q) == [q[0]] + Absent(c, q[1..])
  {
  }

  lemma {:induction false} AbsentSame(c: Cache, r: Cache, q: seq<Lookup>)
    requires ArrayShape(c) && ArrayShape(r) && forall addr: nat :: IsHit(r, addr) <==> IsHit(c, addr)
    ensures Absent(r, q) == Absent(c, q)
  {
    hide IsHit, ArrayShape;
    if q != [] { AbsentSame(c, r, q[1..]); }
  }

  lemma {:induction false} HitKeepsHits(c: Cache, i: nat)
    requires ArrayShape(c) && i < |c.tags| && IsHit(c, c.tags[i].addr)
    ensures Hit(c, c.tags[i]).tags == c.tags
    ensures var r := EraseTag(Hit(c, c.tags[i]), i);
            ArrayShape(r) && r.tags == c.tags[..i] + c.tags[i + 1..] && forall addr: nat :: IsHit(r, addr) <==> IsHit(c, addr)
  {
    var r := EraseTag(Hit(c, c.tags[i]), i);
    HitTags(c, c.tags[i]);
    assert SameTags(c, r);
    SameTagsHit(c, r, 0);
    forall addr: nat ensures IsHit(r, addr) <==> IsHit(c, addr) { SameTagsHit(c, r, addr); }
  }

  // A queue without its entry at i, in parts.
  lemma {:induction false} Erased<T>(q: seq<T>, i: nat, n: nat)
    requires 0 < n && i + n <= |q|
    ensures var r := q[..i] + q[i + 1..];
            r[..i] == q[..i] && r[i..i + n - 1] == q[i + 1..i + n] == q[i..i + n][1..] && r[i + n - 1..] == q[i + n..]
  {
  }

  // The first pass takes the hits out and nothing else.
  lemma {:induction false} HitsTakenOut(c: Cache, i: nat, n: nat)
    requires ArrayShape(c) && i + n <= |c.tags|
    ensures var (r, misses) := HitPass(c, i, n);
            && ArrayShape(r) && misses == i + |Absent(c, c.tags[i..i + n])|
            && r.tags == c.tags[..i] + Absent(c, c.tags[i..i + n]) + c.tags[i + n..]
            && forall addr: nat :: IsHit(r, addr) <==> IsHit(c, addr)
    decreases n
  {
    hide IsHit, Hit, ArrayShape, EraseTag, Absent;
    var q := c.tags[i..i + n];
    AbsentHead(c, q);
    if n > 0 {
      if IsHit(c, c.tags[i].addr) {
        HitKeepsHits(c, i);
        var r := EraseTag(Hit(c, c.tags[i]), i);
        HitsTakenOut(r, i, n - 1);
        AbsentSame(c, r, q[1..]);
        Erased(c.tags, i, n);
      } else {
        HitsTakenOut(c, i + 1, n - 1);
        assert c.tags[i + 1..i + 1 + (n - 1)] == q[1..];
        assert c.tags[..i + 1] == c.tags[..i] + [c.tags[i]];
        ConcatAssoc(c.tags[..i], [c.tags[i]], Absent(c, q[1..]));
      }
    } else {
      assert c.tags == c.tags[..i] + [] + c.tags[i..];
    }
  }

  // A miss waits exactly when it is not a write to fill, no register has its
  // block, and the registers are full or the level below has no room.
  lemma {:induction false} MissWaitsExactly(c: Cache, x: Lookup, accepted: bool)
    ensures !DoMiss(c, x, accepted).1 <==>
              && !(x.kind.Write? && !c.cfg.matchOffset)
              && (forall m :: 0 <= m < |c.mshr| ==> !Same(c.mshr[m].addr, x.addr, c.cfg.block))
              && (|c.mshr| == c.cfg.mshrSize || !accepted)
    ensures !DoMiss(c, x, accepted).1 ==> DoMiss(c, x, accepted).0 == c
  {
  }

  // One that does not is a write to fill, goes into the register of its block, or
  // gets one, with its block asked for below, unless it is a prefetch of this
  // cache that is not to be filled.
  lemma {:induction false} MissGoesOn(c: Cache, x: Lookup, accepted: bool)
    requires DoMiss(c, x, accepted).1
    ensures var r := DoMiss(c, x, accepted).0;
            var e := Entry(x.addr, x.vaddr, x.kind, x.fromThis, None, x.deps, x.rets);
            if x.kind.Write? && !c.cfg.matchOffset then
              && r.mshr == c.mshr && r.asked == c.asked
              && r.writes == c.writes + [e.(promise := Some(c.now + if c.warmup then 0 else c.cfg.fillLatency))]
            else
              && r.writes == c.writes
              && if exists m :: 0 <= m < |c.mshr| && Same(c.mshr[m].addr, x.addr, c.cfg.block) then
                   |r.mshr| == |c.mshr| && r.asked == c.asked
                 else if x.fromThis && x.skipFill then r.mshr == c.mshr && r.asked == c.asked
                 else r.mshr == c.mshr + [e] && r.asked == c.asked + multiset{x.addr / c.cfg.block}
  {
  }

  lemma {:induction false} LongerPrefix<T>(q: seq<T>, r: seq<T>, i: nat)
    requires i < |q| && i < |r| && r[..i + 1] == q[..i + 1]
    ensures r[i] == q[i] && r[..i] == q[..i]
  {
    assert r[i] == r[..i + 1][i];
    assert r[..i] == r[..i + 1][..i];
  }

  // The second pass leaves some misses where they were, in order, and the rest of
  // the queue behind them.
  lemma {:induction false} MissPassLeaves(c: Cache, i: nat, n: nat, accepted: seq<bool>, p: Lookup -> bool) returns (left: nat)
    requires i + n <= |c.tags| && forall k :: i <= k < i + n ==> p(c.tags[k])
    ensures i <= left <= i + n
    ensures var r := MissPass(c, i, n, accepted);
            && |r.tags| == left + |c.tags| - (i + n) && r.tags[left..] == c.tags[i + n..] && r.tags[..i] == c.tags[..i]
            && (forall k :: i <= k < left ==> p(r.tags[k]))
    decreases n
  {
    hide DoMiss;
    if n == 0 {
      left := i;
    } else {
      var now := accepted != [] && accepted[0];
      var rest := if accepted == [] then [] else accepted[1..];
      var (r, ok) := DoMiss(c, c.tags[i], now);
      MissKeeps(c, c.tags[i], now);
      if ok {
        left := MissPassLeaves(EraseTag(r, i), i, n - 1, rest, p);
        Erased(c.tags, i, n);
      } else {
        left := MissPassLeaves(r, i + 1, n - 1, rest, p);
        LongerPrefix(c.tags, MissPass(r, i + 1, n - 1, rest).tags, i);
      }
    }
  }

  predicate CheckDue(c: Cache, x: Lookup) {
    x.ready <= c.now && x.translated
  }

  lemma {:induction false} ReadyInFront(c: Cache, n: nat)
    ensures var k := ReadyTags(c, n);
            && k <= |c.tags| && k <= n && (forall i :: 0 <= i < k ==> CheckDue(c, c.tags[i]))
            && (k == n || k == |c.tags| || !CheckDue(c, c.tags[k]))
  {
  }

  // A tag check looks at the lookups in front that are due and translated, as many
  // as the bandwidth allows; it leaves some misses among them, and everything behind.
  lemma {:induction false} ChecksWhatIsDue(c: Cache, n: nat, accepted: seq<bool>) returns (checked: nat, left: nat)
    requires ArrayShape(c)
    ensures checked <= |c.tags| && checked <= n && forall i :: 0 <= i < checked ==> CheckDue(c, c.tags[i])
    ensures checked == n || checked == |c.tags| || !CheckDue(c, c.tags[checked])
    ensures var r := TagCheck(c, n, accepted);
            && left <= checked && |r.tags| == left + |c.tags| - checked && r.tags[left..] == c.tags[checked..]
            && (forall k :: 0 <= k < left ==> r.tags[k] in c.tags[..checked] && !IsHit(c, r.tags[k].addr))
  {
    hide IsHit, HitPass, MissPass, ReadyTags, Absent;
    checked := ReadyTags(c, n);
    ReadyInFront(c, n);
    var (t, misses) := HitPass(c, 0, checked);
    HitsTakenOut(c, 0, checked);
    assert c.tags[0..checked] == c.tags[..checked];
    assert t.tags[0..misses] == Absent(c, c.tags[..checked]) && t.tags[misses..] == c.tags[checked..];
    var kept := (x: Lookup) => ArrayShape(c) && x in c.tags[..checked] && !IsHit(c, x.addr);
    forall k | 0 <= k < misses ensures kept(t.tags[k]) {
      assert t.tags[k] == Absent(c, c.tags[..checked])[k];
      AbsentMember(c, c.tags[..checked], t.tags[k]);
    }
    left := MissPassLeaves(t, 0, misses, accepted, kept);
  }

  lemma {:induction false} AbsentMember(c: Cache, q: seq<Lookup>, x: Lookup)
    requires ArrayShape(c)
    ensures x in Absent(c, q) <==> x in q && !IsHit(c, x.addr)
  {
    hide IsHit, ArrayShape;
    if q != [] {
      AbsentMember(c, q[1..], x);
      assert q == [q[0]] + q[1..];
    }
  }

  // ---------------------------------------------------------------- the stash

  // Exactly the lookups that are due and not translated go to the end of the stash.
  lemma {:induction false} StashesWhatIsDue(c: Cache)
    ensures var r := StashMissed(c);
            && (forall x :: x in r.tags <==> x in c.tags && (x.ready > c.now || x.translated))
            && |r.stash| >= |c.stash| && r.stash[..|c.stash|] == c.stash
            && (forall x :: x in r.stash[|c.stash|..] <==> x in c.tags && x.ready <= c.now && !x.translated)
            && multiset(r.tags) + multiset(r.stash) == multiset(c.tags) + multiset(c.stash)
  {
    hide Filter;
    var missed := (x: Lookup) => x.ready <= c.now && !x.translated;
    var r := StashMissed(c);
    assert r.stash[|c.stash|..] == Filter(c.tags, missed);
    forall x ensures x in r.tags <==> x in c.tags && (x.ready > c.now || x.translated) { FilterMember(c.tags, Not(missed), x); }
    forall x ensures x in r.stash[|c.stash|..] <==> x in c.tags && x.ready <= c.now && !x.translated { FilterMember(c.tags, missed, x); }
    FilterSplits(c.tags, missed);
    assert multiset(r.stash) == multiset(c.stash) + multiset(Filter(c.tags, missed));
  }

  // After a translation no lookup of its page waits for it.
  lemma {:induction false} PageTranslated(c: Cache, p: Page)
    requires PageBytes(c.cfg) > 0
    ensures var r := FinishTranslation(c, p);
            forall x :: (x in r.tags || x in r.stash) && x.vaddr / (c.cfg.block * c.cfg.blocksPerPage) == p.vpage ==> x.translated
  {
    hide Filter;
    var r := FinishTranslation(c, p);
    var k := FirstUntranslated(c.stash);
    var matches := (x: Lookup) => PageBytes(c.cfg) > 0 && OnPage(c.cfg, x, p.vpage);
    var on, off := Filter(c.stash[k..], matches), Filter(c.stash[k..], Not(matches));
    forall x | (x in r.tags || x in r.stash) && x.vaddr / PageBytes(c.cfg) == p.vpage ensures x.translated {
      if x in r.stash {
        assert x in c.stash[..k] || x in TranslateAll(c.cfg, on, p) || x in off;
        if x in off { FilterMember(c.stash[k..], Not(matches), x); }
        if x in TranslateAll(c.cfg, on, p) {
          var i :| 0 <= i < |on| && x == CacheModel.Translate(c.cfg, on[i], p);
        }
      } else {
        var i :| 0 <= i < |c.tags| && x == CacheModel.Translate(c.cfg, c.tags[i], p);
      }
    }
  }

  // ----------------------------------------------------------------- beginnings

  // A check begins with the front of a queue, as far as the bandwidth and the stash
  // allow, and its lookups are due after the hit latency.
  lemma {:induction false} BeginsInOrder(c: Cache, u: nat, s: Source, n: nat) returns (k: nat)
    requires u < |c.uppers|
    ensures var q := UpperQueue(c.uppers[u], s);
            var r := BeginUpper(c, u, s, n);
            && k <= |q| && k <= n && (forall i :: 0 <= i < k ==> |c.stash| < c.cfg.mshrSize || q[i].translated)
            && (k == n || k == |q| || (|c.stash| >= c.cfg.mshrSize && !q[k].translated))
            && UpperQueue(r.uppers[u], s) == q[k..]
            && |r.tags| == |c.tags| + k && r.tags[..|c.tags|] == c.tags
            && (forall i :: 0 <= i < k ==>
                  var x := r.tags[|c.tags| + i];
                  && x.ready == (c.now + if c.warmup then 0 else c.cfg.hitLatency) && !x.issued && !x.fromThis && !x.skipFill
                  && x.addr == q[i].addr && x.vaddr == q[i].vaddr && x.kind == q[i].kind && x.translated == q[i].translated
                  && x.deps == q[i].deps && x.rets == if q[i].respond then [u] else [])
  {
    k := StartCount(c, UpperQueue(c.uppers[u], s), n);
  }

  lemma {:induction false} RestartsInOrder(c: Cache, n: nat) returns (k: nat)
    ensures var r := BeginStash(c, n);
            && k <= |c.stash| && k <= n && (forall i :: 0 <= i < k ==> c.stash[i].translated)
            && (k == n || k == |c.stash| || !c.stash[k].translated)
            && r.stash == c.stash[k..] && |r.tags| == |c.tags| + k && r.tags[..|c.tags|] == c.tags
            && (forall i :: 0 <= i < k ==>
                  r.tags[|c.tags| + i] == c.stash[i].(ready := c.now + if c.warmup then 0 else c.cfg.hitLatency))
  {
    k := Span(c.stash, n, (x: Lookup) => x.translated);
  }

  lemma {:induction false} PrefetchesInOrder(c: Cache, n: nat) returns (k: nat)
    ensures var r := BeginPrefetch(c, n);
            && k <= |c.pq| && k <= n && (forall i :: 0 <= i < k ==> |c.stash| < c.cfg.mshrSize || c.pq[i].translated)
            && (k == n || k == |c.pq| || (|c.stash| >= c.cfg.mshrSize && !c.pq[k].translated))
            && r.pq == c.pq[k..] && |r.tags| == |c.tags| + k && r.tags[..|c.tags|] == c.tags
            && (forall i :: 0 <= i < k ==>
                  r.tags[|c.tags| + i] == c.pq[i].(ready := c.now + if c.warmup then 0 else c.cfg.hitLatency))
  {
    k := Span(c.pq, n, (x: Lookup) => MayStart(c, x.translated));
  }

  // A prefetch of this cache that misses takes a register exactly if it is to be
  // filled here.
  lemma {:induction false} OnlyFillsHere(c: Cache, addr: nat, fillHere: bool, isVirtual: bool, d: Cache, ready: int)
    requires |c.pq| < c.cfg.pqSize
    requires |d.mshr| < d.cfg.mshrSize
    requires forall m :: 0 <= m < |d.mshr| ==> !Same(d.mshr[m].addr, addr, d.cfg.block)
    ensures var r := PrefetchLine(c, addr, fillHere, isVirtual).0;
            && |r.pq| == |c.pq| + 1 && r.pq[..|c.pq|] == c.pq
            && var x := r.pq[|c.pq|];
               x.addr == addr && x.rets == [] && x.translated == !isVirtual &&
               |DoMiss(d, Restart(x, ready), true).0.mshr| == |d.mshr| + if fillHere then 1 else 0
  {
  }

  // -------------------------------------------------------------------- fills

  // The front is filled exactly when it is due and a dirty victim can go below.
  lemma {:induction false} FillsWhenDue(c: Cache, write: bool, victim: nat)
    requires ArrayShape(c) && victim <= c.cfg.numWay
    ensures var q := if write then c.writes else c.mshr;
            var due := q != [] && q[0].promise.Some? && q[0].promise.value <= c.now;
            && (due ==> (if write then FillFront(c, write, victim, true).writes else FillFront(c, write, victim, true).mshr) == q[1..])
            && (!due ==> forall accepted :: FillFront(c, write, victim, accepted) == c)
  {
  }

  // One way of the set changes: an empty one while there is one, and the victim
  // otherwise. Only a dirty block that leaves goes below, and only then must it.
  lemma {:induction false} FillTakesOneWay(c: Cache, e: Entry, victim: nat, accepted: bool) returns (w: nat)
    requires ArrayShape(c) && victim <= c.cfg.numWay
    ensures var (r, ok) := HandleFill(c, e, victim, accepted);
            var s := e.addr / c.cfg.block % c.cfg.numSet;
            && w <= c.cfg.numWay
            && ((w < c.cfg.numWay && !c.sets[s][w].valid) || (w == victim && forall v :: 0 <= v < c.cfg.numWay ==> c.sets[s][v].valid))
            && (var leaves := w < c.cfg.numWay && c.sets[s][w].valid && c.sets[s][w].dirty;
                && (ok <==> !leaves || accepted)
                && (ok ==> r.evicted == c.evicted + if leaves then [c.sets[s][w].addr] else []))
            && (forall t, v :: 0 <= t < |c.sets| && 0 <= v < |c.sets[t]| ==>
                  r.sets[t][v] == if ok && t == s && v == w then Way(true, e.kind.Write?, e.fromThis, e.addr) else c.sets[t][v])
  {
    w := FillWay(c, e, victim);
    var s := SetIndex(c.cfg, e.addr);
    if FirstInvalid(c.sets[s]) == |c.sets[s]| { AllValid(c.sets[s]); }
  }

  lemma {:induction false} AllValid(ws: seq<Way>)
    requires FirstInvalid(ws) == |ws|
    ensures forall w :: 0 <= w < |ws| ==> ws[w].valid
  {
    if ws != [] {
      AllValid(ws[1..]);
      assert ws == [ws[0]] + ws[1..];
    }
  }

  // A hit touches one way: a write makes it dirty, and a lookup from elsewhere
  // ends its being a prefetched block.
  lemma {:induction false} HitTouchesOneWay(c: Cache, x: Lookup) returns (w: nat)
    requires ArrayShape(c) && IsHit(c, x.addr)
    ensures var s := x.addr / c.cfg.block % c.cfg.numSet;
            && w < c.cfg.numWay && Holds(c, s, w) && Same(c.sets[s][w].addr, x.addr, c.cfg.block)
            && var r := Hit(c, x);
               forall t, v :: 0 <= t < |c.sets| && 0 <= v < |c.sets[t]| ==>
                 var way := c.sets[t][v];
                 if t == s && v == w then
                   && r.sets[t][v].valid && r.sets[t][v].addr == way.addr
                   && (r.sets[t][v].dirty <==> way.dirty || x.kind == AccessType.Write)
                   && (r.sets[t][v].prefetch <==> way.prefetch && x.fromThis)
                 else r.sets[t][v] == way
  {
    w := FindWay(c.sets[SetIndex(c.cfg, x.addr)], x.addr, c.cfg.block);
  }

  // --------------------------------------------------------------------- room

  // A queue takes what comes exactly while it has room.
  lemma {:induction false} TakenWhileRoom(c: Cache, u: nat, s: Source, x: Request, addr: nat, fillHere: bool, isVirtual: bool)
    requires u < |c.uppers|
    ensures var q := UpperQueue(c.uppers[u], s);
            var size := match s case WriteQueue => c.cfg.wqSize case ReadQueue => c.cfg.rqSize case PrefetchQueue => c.cfg.upperPqSize;
            var (r, ok) := Arrive(c, u, s, x);
            && (ok <==> |q| < size)
            && UpperQueue(r.uppers[u], s) == (if |q| < size then q + [x.(checked := false)] else q)
            && (forall t :: t != s ==> UpperQueue(r.uppers[u], t) == UpperQueue(c.uppers[u], t))
            && (forall v :: 0 <= v < |c.uppers| && v != u ==> r.uppers[v] == c.uppers[v])
    ensures PrefetchLine(c, addr, fillHere, isVirtual).1 <==> |c.pq| < c.cfg.pqSize
  {
  }

  predicate QueuesFit(cfg: Config, qs: Queues) {
    |qs.wq| <= cfg.wqSize && |qs.rq| <= cfg.rqSize && |qs.pq| <= cfg.upperPqSize
  }

  ghost predicate Bounded(c: Cache) {
    |c.pq| <= c.cfg.pqSize && forall u :: 0 <= u < |c.uppers| ==> QueuesFit(c.cfg, c.uppers[u])
  }

  lemma {:induction false} MergeShortens(q: seq<Request>, k: nat, unit: Unit)
    requires k <= |q|
    ensures |MergeFrom(q, k, unit)| <= |q|
    decreases |q| - k
  {
    if k < |q| {
      var f := Collision(q, k, q[k], unit);
      if f < k { MergeShortens(MergeInto(q, f, k), k, unit); } else { MergeShortens(MarkChecked(q, k), k + 1, unit); }
    }
  }

  lemma {:induction false} ReadShortens(wq: seq<Request>, r: Read, k: nat, writeUnit: Unit, readUnit: Unit, to: nat)
    requires k <= |r.q|
    ensures |ReadFrom(wq, r, k, writeUnit, readUnit, to).q| <= |r.q|
    decreases |r.q| - k
  {
    hide Collision, Forward;
    if k < |r.q| {
      var x := r.q[k];
      var f := Collision(r.q, k, x, readUnit);
      if Collision(wq, |wq|, x, writeUnit) < |wq| {
        ReadShortens(wq, Read(Erase(r.q, k), r.out + Forward(x, to)), k, writeUnit, readUnit, to);
      } else if f < k {
        ReadShortens(wq, Read(MergeInto(r.q, f, k), r.out), k, writeUnit, readUnit, to);
      } else {
        ReadShortens(wq, Read(MarkChecked(r.q, k), r.out), k + 1, writeUnit, readUnit, to);
      }
    }
  }

  lemma {:induction false} CheckShortens(c: Cache, u: nat)
    requires u < |c.uppers| && QueuesFit(c.cfg, c.uppers[u])
    ensures QueuesFit(c.cfg, CheckUpper(c, u).uppers[u])
  {
    hide MergeFrom, ReadFrom;
    var qs := c.uppers[u];
    var unit: Unit := if c.cfg.matchOffset then 1 else c.cfg.block;
    MergeShortens(qs.wq, FirstUnchecked(qs.wq), unit);
    var wq := MergeFrom(qs.wq, FirstUnchecked(qs.wq), unit);
    ReadShortens(wq, Read(qs.rq, c.out), FirstUnchecked(qs.rq), unit, c.cfg.block, u);
    var rq := ReadFrom(wq, Read(qs.rq, c.out), FirstUnchecked(qs.rq), unit, c.cfg.block, u);
    ReadShortens(wq, Read(qs.pq, rq.out), FirstUnchecked(qs.pq), unit, c.cfg.block, u);
  }

  lemma {:induction false} TagsKeepQueues(c: Cache, n: nat, accepted: seq<bool>)
    requires ArrayShape(c)
    ensures var r := TagCheck(c, n, accepted); r.uppers == c.uppers && r.pq == c.pq && r.cfg == c.cfg
  {
    hide HitPass, MissPass, ReadyTags;
    var (t, misses) := HitPass(c, 0, ReadyTags(c, n));
    HitPassQueues(c, 0, ReadyTags(c, n));
    MissPassQueues(t, 0, misses, accepted);
  }

  lemma {:induction false} HitPassQueues(c: Cache, i: nat, n: nat)
    requires ArrayShape(c) && i + n <= |c.tags|
    ensures var r := HitPass(c, i, n).0; r.uppers == c.uppers && r.pq == c.pq && r.cfg == c.cfg
    decreases n
  {
    if n > 0 {
      if IsHit(c, c.tags[i].addr) { HitPassQueues(EraseTag(Hit(c, c.tags[i]), i), i, n - 1); } else { HitPassQueues(c, i + 1, n - 1); }
    }
  }

  lemma {:induction false} MissPassQueues(c: Cache, i: nat, n: nat, accepted: seq<bool>)
    requires i + n <= |c.tags|
    ensures var r := MissPass(c, i, n, accepted); r.uppers == c.uppers && r.pq == c.pq && r.cfg == c.cfg
    decreases n
  {
    hide DoMiss;
    if n > 0 {
      var now := accepted != [] && accepted[0];
      var rest := if accepted == [] then [] else accepted[1..];
      var (r, ok) := DoMiss(c, c.tags[i], now);
      MissKeeps(c, c.tags[i], now);
      MissQueues(c, c.tags[i], now);
      if ok { MissPassQueues(EraseTag(r, i), i, n - 1, rest); } else { MissPassQueues(r, i + 1, n - 1, rest); }
    }
  }

  lemma {:induction false} MissQueues(c: Cache, x: Lookup, accepted: bool)
    ensures var r := DoMiss(c, x, accepted).0; r.uppers == c.uppers && r.pq == c.pq
  {
  }

  lemma {:induction false} StepBounded(c: State, a: Action)
    requires Bounded(c)
    ensures Bounded(Step(c, a))
  {
    hide QueuesFit;
    if Allowed(c, a) {
      if a.Tags? {
        TagsKeepQueues(c, a.n, a.acceptedBelow);
      } else if a.Check? {
        CheckShortens(c, a.u);
      } else if a.Begin? {
        BeginFits(c, a.u, a.s, a.n);
      } else if a.Arrival? {
        ArriveFits(c, a.u, a.s, a.x);
      }
    }
  }

  lemma {:induction false} BeginFits(c: Cache, u: nat, s: Source, n: nat)
    requires u < |c.uppers| && QueuesFit(c.cfg, c.uppers[u])
    ensures QueuesFit(c.cfg, BeginUpper(c, u, s, n).uppers[u])
  {
  }

  lemma {:induction false} ArriveFits(c: Cache, u: nat, s: Source, x: Request)
    requires u < |c.uppers| && QueuesFit(c.cfg, c.uppers[u])
    ensures QueuesFit(c.cfg, Arrive(c, u, s, x).0.uppers[u])
  {
  }

  // No queue ever holds more than it has room for.
  lemma {:induction false} QueuesBounded(cfg: Config, uppers: nat, actions: seq<Action>)
    ensures Bounded(Reached(cfg, uppers, actions))
  {
    hide Inv, Step;
    StartInv(cfg, uppers);
    if actions != [] {
      var n := |actions| - 1;
      QueuesBounded(cfg, uppers, actions[..n]);
      StepBounded(Reached(cfg, uppers, actions[..n]), actions[n]);
    }
  }

  // ---------------------------------------------------------------- latencies

  // How much time the actions let pass.
  function Elapsed(actions: seq<Action>): nat {
    if actions == [] then 0
    else Elapsed(actions[..|actions| - 1]) + if actions[|actions| - 1].Tick? then actions[|actions| - 1].dt else 0
  }

  // An entry of the block has its data, and may be filled from time t on.
  predicate Held(cfg: Config, q: seq<Entry>, addr: nat, t: int) {
    exists i :: 0 <= i < |q| && Same(q[i].addr, addr, cfg.block) && q[i].promise == Some(t)
  }

  // The lookup itself, wherever it has been translated to and whether or not its
  // translation was asked for.
  predicate Alike(x: Lookup, y: Lookup) {
    x == y.(addr := x.addr, translated := x.translated, issued := x.issued)
  }

  predicate Checking(q: seq<Lookup>, x: Lookup) {
    exists i :: 0 <= i < |q| && Alike(q[i], x)
  }

  lemma {:induction false} HeldAt(cfg: Config, q: seq<Entry>, i: nat, addr: nat, t: int)
    requires i < |q| && Same(q[i].addr, addr, cfg.block) && q[i].promise == Some(t)
    ensures Held(cfg, q, addr, t)
  {
  }

  lemma {:induction false} CheckingAt(q: seq<Lookup>, i: nat, x: Lookup)
    requires i < |q| && Alike(q[i], x)
    ensures Checking(q, x)
  {
  }

  lemma {:induction false} FillHolds(c: Cache, write: bool, victim: nat, accepted: bool, of: bool, addr: nat, t: int)
    requires ArrayShape(c) && victim <= c.cfg.numWay && c.now < t && Held(c.cfg, if of then c.writes else c.mshr, addr, t)
    ensures var r := FillFront(c, write, victim, accepted); Held(c.cfg, if of then r.writes else r.mshr, addr, t)
  {
    var r := FillFront(c, write, victim, accepted);
    var q := if of then c.writes else c.mshr;
    var i :| 0 <= i < |q| && Same(q[i].addr, addr, c.cfg.block) && q[i].promise == Some(t);
    if r != c && write == of { HeldAt(c.cfg, q[1..], i - 1, addr, t); }
  }

  lemma {:induction false} AnswerHolds(c: Cache, back: nat, addr: nat, t: int)
    requires MshrOk(c) && BlockOf(c.cfg, back) in c.asked && Held(c.cfg, c.mshr, addr, t)
    ensures Held(c.cfg, FinishPacket(c, back).mshr, addr, t)
  {
    AnswerFinds(c, back);
    var i :| 0 <= i < |c.mshr| && Same(c.mshr[i].addr, addr, c.cfg.block) && c.mshr[i].promise == Some(t);
    HeldAt(c.cfg, FinishPacket(c, back).mshr, i, addr, t);
  }

  lemma {:induction false} MissHolds(c: Cache, x: Lookup, accepted: bool, of: bool, addr: nat, t: int)
    requires Held(c.cfg, if of then c.writes else c.mshr, addr, t)
    ensures var r := DoMiss(c, x, accepted).0; Held(c.cfg, if of then r.writes else r.mshr, addr, t) && r.now == c.now
  {
    var r := DoMiss(c, x, accepted).0;
    var q := if of then c.writes else c.mshr;
    var i :| 0 <= i < |q| && Same(q[i].addr, addr, c.cfg.block) && q[i].promise == Some(t);
    HeldAt(c.cfg, if of then r.writes else r.mshr, i, addr, t);
  }

  lemma {:induction false} MissPassHolds(c: Cache, i: nat, n: nat, accepted: seq<bool>, of: bool, addr: nat, t: int)
    requires i + n <= |c.tags| && Held(c.cfg, if of then c.writes else c.mshr, addr, t)
    ensures var r := MissPass(c, i, n, accepted); Held(c.cfg, if of then r.writes else r.mshr, addr, t)
    decreases n
  {
    hide DoMiss, Held;
    if n > 0 {
      var now := accepted != [] && accepted[0];
      var rest := if accepted == [] then [] else accepted[1..];
      var (r, ok) := DoMiss(c, c.tags[i], now);
      MissKeeps(c, c.tags[i], now);
      MissHolds(c, c.tags[i], now, of, addr, t);
      if ok { MissPassHolds(EraseTag(r, i), i, n - 1, rest, of, addr, t); } else { MissPassHolds(r, i + 1, n - 1, rest, of, addr, t); }
    }
  }

  // A hit changes neither the entries nor the time, and a miss not the time.
  lemma {:induction false} HitPassKeeps(c: Cache, i: nat, n: nat)
    requires ArrayShape(c) && i + n <= |c.tags|
    ensures var r := HitPass(c, i, n).0; r.mshr == c.mshr && r.writes == c.writes && r.now == c.now && r.cfg == c.cfg
    decreases n
  {
    if n > 0 {
      if IsHit(c, c.tags[i].addr) { HitPassKeeps(EraseTag(Hit(c, c.tags[i]), i), i, n - 1); } else { HitPassKeeps(c, i + 1, n - 1); }
    }
  }

  lemma {:induction false} MissPassTime(c: Cache, i: nat, n: nat, accepted: seq<bool>)
    requires i + n <= |c.tags|
    ensures MissPass(c, i, n, accepted).now == c.now
    decreases n
  {
    hide DoMiss;
    if n > 0 {
      var now := accepted != [] && accepted[0];
      var rest := if accepted == [] then [] else accepted[1..];
      var (r, ok) := DoMiss(c, c.tags[i], now);
      MissKeeps(c, c.tags[i], now);
      MissTime(c, c.tags[i], now);
      if ok { MissPassTime(EraseTag(r, i), i, n - 1, rest); } else { MissPassTime(r, i + 1, n - 1, rest); }
    }
  }

  lemma {:induction false} MissTime(c: Cache, x: Lookup, accepted: bool)
    ensures DoMiss(c, x, accepted).0.now == c.now
  {
  }

  lemma {:induction false} TagsHold(c: Cache, n: nat, accepted: seq<bool>, of: bool, addr: nat, t: int)
    requires ArrayShape(c) && Held(c.cfg, if of then c.writes else c.mshr, addr, t)
    ensures var r := TagCheck(c, n, accepted); Held(c.cfg, if of then r.writes else r.mshr, addr, t)
  {
    hide HitPass, MissPass, Held, ReadyTags;
    var (u, misses) := HitPass(c, 0, ReadyTags(c, n));
    HitPassKeeps(c, 0, ReadyTags(c, n));
    MissPassHolds(u, 0, misses, accepted, of, addr, t);
  }

  lemma {:induction false} StepTime(c: State, a: Action)
    ensures Step(c, a).now == c.now + if a.Tick? then a.dt else 0
  {
    if a.Tags? {
      var k := ReadyTags(c, a.n);
      HitPassKeeps(c, 0, k);
      var (t, misses) := HitPass(c, 0, k);
      MissPassTime(t, 0, misses, a.acceptedBelow);
    }
  }

  lemma {:induction false} StepHolds(c: State, a: Action, of: bool, addr: nat, t: int)
    requires c.now < t && Held(c.cfg, if of then c.writes else c.mshr, addr, t)
    ensures var r := Step(c, a); Held(c.cfg, if of then r.writes else r.mshr, addr, t)
  {
    hide Held;
    if Allowed(c, a) {
      if a.Tags? {
        TagsHold(c, a.n, a.acceptedBelow, of, addr, t);
      } else if a.Fill? {
        FillHolds(c, a.write, a.victim, a.accepted, of, addr, t);
      } else if a.Answer? && !of {
        AnswerHolds(c, a.addr, addr, t);
      }
    }
  }

  // An entry with its data stays until its time.
  lemma {:induction false} EntryWaits(c: State, actions: seq<Action>, of: bool, addr: nat, t: int)
    requires c.now + Elapsed(actions) < t && Held(c.cfg, if of then c.writes else c.mshr, addr, t)
    ensures var r := Run(c, actions);
            r.now == c.now + Elapsed(actions) && r.cfg == c.cfg && Held(c.cfg, if of then r.writes else r.mshr, addr, t)
  {
    hide Inv, Held, Step;
    if actions != [] {
      var n := |actions| - 1;
      EntryWaits(c, actions[..n], of, addr, t);
      StepHolds(Run(c, actions[..n]), actions[n], of, addr, t);
      StepTime(Run(c, actions[..n]), actions[n]);
      StepConfig(Run(c, actions[..n]), actions[n]);
    }
  }

  lemma {:induction false} AnswerGivesData(c: State, addr: nat)
    requires addr / c.cfg.block in c.asked && !c.warmup
    ensures Held(c.cfg, Step(c, Answer(addr)).mshr, addr, c.now + c.cfg.fillLatency)
  {
    AnswerFinds(c, addr);
    HeldAt(c.cfg, FinishPacket(c, addr).mshr, FirstUnreturned(c.mshr), addr, c.now + c.cfg.fillLatency);
  }

  // Data that comes back cannot be filled before the fill latency has passed,
  // whatever happens meanwhile.
  lemma {:induction false} DataWaitsFillLatency(c: State, addr: nat, actions: seq<Action>)
    requires addr / c.cfg.block in c.asked && !c.warmup && Elapsed(actions) < c.cfg.fillLatency
    ensures var r := Run(Step(c, Answer(addr)), actions);
            exists m :: 0 <= m < |r.mshr| && Same(r.mshr[m].addr, addr, c.cfg.block) && r.mshr[m].promise == Some(c.now + c.cfg.fillLatency)
  {
    hide Inv, Run, Step;
    var r := Step(c, Answer(addr));
    AnswerGivesData(c, addr);
    StepConfig(c, Answer(addr));
    StepTime(c, Answer(addr));
    EntryWaits(r, actions, false, addr, c.now + c.cfg.fillLatency);
  }

  // ---- lookups

  lemma {:induction false} TagsCheck(c: Cache, n: nat, accepted: seq<bool>, x: Lookup)
    requires ArrayShape(c) && c.now < x.ready && Checking(c.tags, x)
    ensures Checking(TagCheck(c, n, accepted).tags, x)
  {
    hide TagCheck;
    var i :| 0 <= i < |c.tags| && Alike(c.tags[i], x);
    var checked, left := ChecksWhatIsDue(c, n, accepted);
    var r := TagCheck(c, n, accepted);
    assert c.tags[checked..][i - checked] == c.tags[i];
    assert r.tags[left..][i - checked] == r.tags[left + i - checked];
    CheckingAt(r.tags, left + i - checked, x);
  }

  lemma {:induction false} StashChecks(c: Cache, x: Lookup)
    requires c.now < x.ready && Checking(c.tags, x)
    ensures Checking(StashMissed(c).tags, x)
  {
    hide StashMissed;
    var i :| 0 <= i < |c.tags| && Alike(c.tags[i], x);
    StashesWhatIsDue(c);
    var r := StashMissed(c);
    assert c.tags[i] in r.tags;
    var j :| 0 <= j < |r.tags| && r.tags[j] == c.tags[i];
    CheckingAt(r.tags, j, x);
  }

  // The front of the tag queue grows at its end, or its lookups are marked.
  lemma {:induction false} GrowsOrMarked(q: seq<Lookup>, r: seq<Lookup>, x: Lookup)
    requires Checking(q, x) && |q| <= |r| && forall i :: 0 <= i < |q| ==> Alike(r[i], q[i])
    ensures Checking(r, x)
  {
    var i :| 0 <= i < |q| && Alike(q[i], x);
    CheckingAt(r, i, x);
  }

  lemma {:induction false} StateShape(c: State)
    ensures ArrayShape(c)
  {
  }

  lemma {:induction false} StepChecks(c: State, a: Action, x: Lookup)
    requires c.now < x.ready && Checking(c.tags, x)
    ensures Checking(Step(c, a).tags, x)
  {
    hide Inv, Checking, Alike;
    if Allowed(c, a) {
      if a.Tags? {
        StateShape(c);
        TagsCheck(c, a.n, a.acceptedBelow, x);
      } else if a.Stash? {
        StashChecks(c, x);
      } else {
        OthersGrowOrMark(c, a);
        GrowsOrMarked(c.tags, Step(c, a).tags, x);
      }
    }
  }

  lemma {:induction false} OthersGrowOrMark(c: State, a: Action)
    requires Allowed(c, a) && !a.Tags? && !a.Stash?
    ensures var r := Step(c, a).tags; |c.tags| <= |r| && forall i :: 0 <= i < |c.tags| ==> Alike(r[i], c.tags[i])
  {
    hide Inv, Step;
    if a.Translate? || a.Issue? { TagsMarked(c, a); } else { TagsAppended(c, a); }
  }

  lemma {:induction false} TagsAppended(c: State, a: Action)
    requires Allowed(c, a) && !a.Tags? && !a.Stash? && !a.Translate? && !a.Issue?
    ensures c.tags <= Step(c, a).tags
  {
    hide Inv, Span, FromRequests, RestartAll;
  }

  lemma {:induction false} TagsMarked(c: State, a: Action)
    requires a.Translate? || a.Issue?
    ensures var r := Step(c, a).tags; |c.tags| == |r| && forall i :: 0 <= i < |c.tags| ==> Alike(r[i], c.tags[i])
  {
    hide Inv, Filter, FirstUntranslated;
  }

  // A lookup is neither answered nor missed before the hit latency has passed since
  // its check began: until then it stays among those being checked.
  lemma {:induction false} LookupWaitsHitLatency(c: State, actions: seq<Action>, x: Lookup)
    requires c.now + Elapsed(actions) < x.ready && Checking(c.tags, x)
    ensures Run(c, actions).now == c.now + Elapsed(actions) && Checking(Run(c, actions).tags, x)
  {
    hide Inv, Checking, Step;
    if actions != [] {
      var n := |actions| - 1;
      LookupWaitsHitLatency(c, actions[..n], x);
      StepChecks(Run(c, actions[..n]), actions[n], x);
      StepTime(Run(c, actions[..n]), actions[n]);
    }
  }
}
