// When a cache keeps its blocks distinct. Writebacks are filled without a look at
// the miss registers, so a cache that takes them can hold a block twice, or hold
// a block that it waits for. It does so exactly when a miss meets another fill of
// its own block.
module CacheDistinct {
  import opened Prelude
  import opened SetUnion
  import opened Channels
  import opened Algorithms
  import opened CacheModel
  import opened CacheInvariant
  import opened CacheSteps
  import opened CacheRuns

  // No block in two ways, and no block both held and waited for.
  ghost predicate Distinct(c: Cache) {
    ArrayShape(c) && NoCopies(c) && NoneOutstanding(c)
  }

  // ------------------------------------------------------ fills of one block

  predicate Apart(cfg: Config, x: seq<Entry>, y: seq<Entry>) {
    forall i, j :: 0 <= i < |x| && 0 <= j < |y| ==> !Same(x[i].addr, y[j].addr, cfg.block)
  }

  // No two fills that are still to come can put a block where it already is: a
  // register and a write are of different blocks, and so are two writes. With one
  // way a second write replaces the first.
  predicate FillsApart(c: Cache) {
    && (c.cfg.numWay >= 1 ==> Apart(c.cfg, c.mshr, c.writes))
    && (c.cfg.numWay >= 2 ==> DistinctEntries(c.cfg, c.writes))
  }

  // What handle_write and handle_miss would have to look at, and do not.
  predicate CleanMiss(c: Cache, x: Lookup, accepted: bool) {
    var registered := FindEntry(c.mshr, x.addr, c.cfg.block) < |c.mshr|;
    var written := FindEntry(c.writes, x.addr, c.cfg.block) < |c.writes|;
    if x.kind.Write? && !c.cfg.matchOffset then
      (c.cfg.numWay >= 1 ==> !registered) && (c.cfg.numWay >= 2 ==> !written)
    else if registered || |c.mshr| == c.cfg.mshrSize || !accepted || (x.fromThis && x.skipFill) then true
    else c.cfg.numWay >= 1 ==> !written
  }

  predicate CleanPass(c: Cache, i: nat, n: nat, accepted: seq<bool>)
    requires i + n <= |c.tags|
    decreases n
  {
    n == 0 ||
    (var now := accepted != [] && accepted[0];
     var rest := if accepted == [] then [] else accepted[1..];
     var (r, ok) := DoMiss(c, c.tags[i], now);
     && CleanMiss(c, c.tags[i], now)
     && if ok then CleanPass(EraseTag(r, i), i, n - 1, rest) else CleanPass(r, i + 1, n - 1, rest))
  }

  ghost predicate CleanStep(c: State, a: Action) {
    a.Tags? ==>
      var (t, misses) := HitPass(c, 0, ReadyTags(c, a.n));
      CleanPass(t, 0, misses, a.acceptedBelow)
  }

  // Each miss of a run finds no fill of its own block under way.
  ghost predicate CleanRun(c: State, actions: seq<Action>) {
    forall k :: 0 <= k < |actions| ==> CleanStep(Run(c, actions[..k]), actions[k])
  }

  // Time passes and writes are filled; nothing else happens.
  predicate Draining(actions: seq<Action>) {
    forall k :: 0 <= k < |actions| ==> actions[k].Tick? || actions[k].Fill?
  }

  lemma {:induction false} FindNone(q: seq<Entry>, addr: nat, block: Unit)
    ensures FindEntry(q, addr, block) == |q| <==> forall k :: 0 <= k < |q| ==> !Same(q[k].addr, addr, block)
  {
  }

  // -------------------------------------------------- a miss and the fills to come

  // The guard decides whether the fills stay apart.
  lemma {:induction false} MissApart(c: Cache, x: Lookup, accepted: bool)
    requires FillsApart(c)
    ensures FillsApart(DoMiss(c, x, accepted).0) <==> CleanMiss(c, x, accepted)
  {
    var r := DoMiss(c, x, accepted).0;
    FindNone(c.mshr, x.addr, c.cfg.block);
    FindNone(c.writes, x.addr, c.cfg.block);
    var m, w := FindEntry(c.mshr, x.addr, c.cfg.block), FindEntry(c.writes, x.addr, c.cfg.block);
    if x.kind.Write? && !c.cfg.matchOffset {
      assert r.writes[|c.writes|].addr == x.addr;
      if c.cfg.numWay >= 1 && m < |c.mshr| { assert Same(r.mshr[m].addr, r.writes[|c.writes|].addr, c.cfg.block); }
      if c.cfg.numWay >= 2 && w < |c.writes| { assert Same(r.writes[w].addr, r.writes[|c.writes|].addr, c.cfg.block); }
    } else if m < |c.mshr| {
      MergeKept(c, x, accepted);
    } else if |r.mshr| > |c.mshr| {
      assert r.mshr[|c.mshr|].addr == x.addr;
      if c.cfg.numWay >= 1 && w < |c.writes| { assert Same(r.mshr[|c.mshr|].addr, r.writes[w].addr, c.cfg.block); }
    }
  }

  // Merging changes no register's block.
  lemma {:induction false} MergeKept(c: Cache, x: Lookup, accepted: bool)
    requires FindEntry(c.mshr, x.addr, c.cfg.block) < |c.mshr|
    ensures var r := HandleMiss(c, x, accepted).0;
            |r.mshr| == |c.mshr| && forall i :: 0 <= i < |c.mshr| ==> Same(r.mshr[i].addr, c.mshr[i].addr, c.cfg.block)
  {
  }

  // Fills that clash keep clashing until one of them is done.
  lemma {:induction false} MissClash(c: Cache, x: Lookup, accepted: bool)
    requires !FillsApart(c)
    ensures !FillsApart(DoMiss(c, x, accepted).0)
  {
    var r := DoMiss(c, x, accepted).0;
    if c.cfg.numWay >= 1 && !Apart(c.cfg, c.mshr, c.writes) {
      var i, j :| 0 <= i < |c.mshr| && 0 <= j < |c.writes| && Same(c.mshr[i].addr, c.writes[j].addr, c.cfg.block);
      assert Same(r.mshr[i].addr, r.writes[j].addr, c.cfg.block);
    } else {
      var i, j :| 0 <= i < j < |c.writes| && Same(c.writes[i].addr, c.writes[j].addr, c.cfg.block);
      assert Same(r.writes[i].addr, r.writes[j].addr, c.cfg.block);
    }
  }

  lemma {:induction false} PassClash(c: Cache, i: nat, n: nat, accepted: seq<bool>)
    requires i + n <= |c.tags| && !FillsApart(c)
    ensures !FillsApart(MissPass(c, i, n, accepted))
    decreases n
  {
    hide DoMiss, Apart;
    if n > 0 {
      var now := accepted != [] && accepted[0];
      var rest := if accepted == [] then [] else accepted[1..];
      var (r, ok) := DoMiss(c, c.tags[i], now);
      MissKeeps(c, c.tags[i], now);
      MissClash(c, c.tags[i], now);
      if ok { PassClash(EraseTag(r, i), i, n - 1, rest); } else { PassClash(r, i + 1, n - 1, rest); }
    }
  }

  lemma {:induction false} PassApart(c: Cache, i: nat, n: nat, accepted: seq<bool>)
    requires i + n <= |c.tags| && FillsApart(c)
    ensures FillsApart(MissPass(c, i, n, accepted)) <==> CleanPass(c, i, n, accepted)
    decreases n
  {
    hide DoMiss, CleanMiss, Apart;
    if n > 0 {
      var now := accepted != [] && accepted[0];
      var rest := if accepted == [] then [] else accepted[1..];
      var (r, ok) := DoMiss(c, c.tags[i], now);
      MissApart(c, c.tags[i], now);
      MissKeeps(c, c.tags[i], now);
      var t := if ok then EraseTag(r, i) else r;
      var j := if ok then i else i + 1;
      assert FillsApart(t) <==> FillsApart(r);
      if FillsApart(t) { PassApart(t, j, n - 1, rest); } else { PassClash(t, j, n - 1, rest); }
    }
  }

  // ------------------------------------------------ clean runs stay distinct

  // What a clean run keeps.
  ghost predicate Single(c: Cache) {
    && Distinct(c) && FillsApart(c)
    && (c.cfg.numWay >= 2 ==> forall j :: 0 <= j < |c.writes| ==> !IsHit(c, c.writes[j].addr))
  }

  lemma {:induction false} DistinctMeans(c: State)
    ensures Distinct(c) <==>
              && (forall s, v, w :: Holds(c, s, v) && Holds(c, s, w) && v != w ==>
                    !Same(c.sets[s][v].addr, c.sets[s][w].addr, c.cfg.block))
              && (forall s, v, i :: Holds(c, s, v) && 0 <= i < |c.mshr| ==>
                    !Same(c.sets[s][v].addr, c.mshr[i].addr, c.cfg.block))
  {
    if NoneOutstanding(c) {
      forall s, v, i | Holds(c, s, v) && 0 <= i < |c.mshr| ensures !Same(c.sets[s][v].addr, c.mshr[i].addr, c.cfg.block) {
        HitMeans(c, c.mshr[i].addr);
      }
    } else {
      var i :| 0 <= i < |c.mshr| && IsHit(c, c.mshr[i].addr);
      HitMeans(c, c.mshr[i].addr);
    }
  }

  predicate Registered(q: seq<Entry>, addr: nat) {
    exists k :: 0 <= k < |q| && q[k].addr == addr
  }

  // A step that neither fills nor misses.
  lemma {:induction false} KeptSingle(c: Cache, r: Cache)
    requires Single(c) && SameTags(c, r) && r.writes == c.writes
    requires r.mshr == c.mshr || forall i :: 0 <= i < |r.mshr| ==> Registered(c.mshr, r.mshr[i].addr)
    ensures Single(r)
  {
    if r.mshr == c.mshr {
      forall i | 0 <= i < |r.mshr| ensures Registered(c.mshr, r.mshr[i].addr) { assert c.mshr[i].addr == r.mshr[i].addr; }
    }
    forall s, w ensures Holds(r, s, w) <==> Holds(c, s, w) {}
    forall addr: nat ensures ArrayShape(r) && (IsHit(r, addr) <==> IsHit(c, addr)) { SameTagsHit(c, r, addr); }
    assert NoCopies(r) by {
      forall s, v, w | Holds(r, s, v) && Holds(r, s, w) && v != w
        ensures !Same(r.sets[s][v].addr, r.sets[s][w].addr, c.cfg.block)
      {
        assert Holds(c, s, v) && Holds(c, s, w);
      }
    }
  }

  lemma {:induction false} AnswerSingle(c: Cache, addr: nat)
    requires Single(c)
    ensures Single(FinishPacket(c, addr))
  {
    var r := FinishPacket(c, addr);
    var m, f := FindEntry(c.mshr, addr, c.cfg.block), FirstUnreturned(c.mshr);
    forall i | 0 <= i < |r.mshr| ensures Registered(c.mshr, r.mshr[i].addr) {
      var k := if r == c then i else if i == f then m else if i == m then f else i;
      assert c.mshr[k].addr == r.mshr[i].addr;
    }
    KeptSingle(c, r);
  }

  lemma {:induction false} HitPassSingle(c: Cache, i: nat, n: nat)
    requires Single(c) && i + n <= |c.tags|
    ensures Single(HitPass(c, i, n).0)
    decreases n
  {
    if n > 0 {
      if IsHit(c, c.tags[i].addr) {
        var r := EraseTag(Hit(c, c.tags[i]), i);
        HitTags(c, c.tags[i]);
        KeptSingle(c, r);
        HitPassSingle(r, i, n - 1);
      } else {
        HitPassSingle(c, i + 1, n - 1);
      }
    }
  }

  // A miss leaves the blocks of the registers alone, and adds at most its own.
  lemma {:induction false} MissRegisters(c: Cache, x: Lookup, accepted: bool)
    ensures var r := DoMiss(c, x, accepted).0;
            forall i :: 0 <= i < |r.mshr| ==> Same(r.mshr[i].addr, if i < |c.mshr| then c.mshr[i].addr else x.addr, c.cfg.block)
  {
  }

  lemma {:induction false} MissStays(c: Cache, x: Lookup, accepted: bool)
    requires Distinct(c) && !IsHit(c, x.addr)
    ensures Distinct(DoMiss(c, x, accepted).0)
  {
    hide DoMiss, IsHit;
    var r := DoMiss(c, x, accepted).0;
    MissKeeps(c, x, accepted);
    MissRegisters(c, x, accepted);
    SameSets(c, r);
    forall i | 0 <= i < |r.mshr| ensures !IsHit(r, r.mshr[i].addr) {
      HitSame(c, if i < |c.mshr| then c.mshr[i].addr else x.addr, r.mshr[i].addr);
    }
  }

  lemma {:induction false} SameSets(c: Cache, r: Cache)
    requires ArrayShape(c) && r.cfg == c.cfg && r.sets == c.sets
    ensures ArrayShape(r) && (NoCopies(c) ==> NoCopies(r)) && forall addr: nat :: IsHit(r, addr) <==> IsHit(c, addr)
  {
    forall s, w ensures Holds(r, s, w) <==> Holds(c, s, w) {}
    forall addr: nat ensures ArrayShape(r) && (IsHit(r, addr) <==> IsHit(c, addr)) { SameTagsHit(c, r, addr); }
  }

  lemma {:induction false} MissSingle(c: Cache, x: Lookup, accepted: bool)
    requires Single(c) && !IsHit(c, x.addr) && CleanMiss(c, x, accepted)
    ensures Single(DoMiss(c, x, accepted).0)
  {
    var r := DoMiss(c, x, accepted).0;
    MissApart(c, x, accepted);
    MissStays(c, x, accepted);
    if c.cfg.numWay >= 2 {
      forall j | 0 <= j < |r.writes| ensures !IsHit(r, r.writes[j].addr) { SameTagsHit(c, r, r.writes[j].addr); }
    }
  }

  lemma {:induction false} EraseSingle(c: Cache, i: nat)
    requires i < |c.tags| && Single(c)
    ensures Single(EraseTag(c, i))
  {
    KeptSingle(c, EraseTag(c, i));
  }

  lemma {:induction false} MissPassSingle(c: Cache, i: nat, n: nat, accepted: seq<bool>)
    requires Missing(c, i, n) && Single(c) && CleanPass(c, i, n, accepted)
    ensures Single(MissPass(c, i, n, accepted))
    decreases n
  {
    hide Single, CleanMiss, DoMiss, SameTags;
    if n > 0 {
      var now := accepted != [] && accepted[0];
      var rest := if accepted == [] then [] else accepted[1..];
      var (r, ok) := DoMiss(c, c.tags[i], now);
      MissKeeps(c, c.tags[i], now);
      MissSingle(c, c.tags[i], now);
      MissKeepsMissing(c, i, n, now);
      if ok {
        EraseSingle(r, i);
        MissPassSingle(EraseTag(r, i), i, n - 1, rest);
      } else {
        MissPassSingle(r, i + 1, n - 1, rest);
      }
    }
  }

  lemma {:induction false} TagsSingle(c: State, n: nat, accepted: seq<bool>)
    requires Single(c) && CleanStep(c, Tags(n, accepted))
    ensures Single(TagCheck(c, n, accepted))
  {
    var k := ReadyTags(c, n);
    var (t, misses) := HitPassStep(c, 0, k);
    HitPassSingle(c, 0, k);
    MissPassSingle(t, 0, misses, accepted);
  }

  // One more block in the array: the front of the registers or of the writes.
  lemma {:induction false} FillSingle(c: State, write: bool, victim: nat, accepted: bool)
    requires Single(c) && victim <= c.cfg.numWay
    ensures Single(FillFront(c, write, victim, accepted))
  {
    var r := FillFront(c, write, victim, accepted);
    var q := if write then c.writes else c.mshr;
    if r != c {
      var e := q[0];
      var s, w := SetIndex(c.cfg, e.addr), FillWay(c, e, victim);
      if w < c.cfg.numWay {
        var way := Way(true, e.kind.Write?, e.fromThis, e.addr);
        FilledArray(c, r, s, w, way);
        forall i | 0 <= i < |r.mshr| ensures !IsHit(r, r.mshr[i].addr) {
          assert r.mshr[i] == if write then c.mshr[i] else c.mshr[i + 1];
          FilledHit(c, r, s, w, way, r.mshr[i].addr);
        }
        forall j | c.cfg.numWay >= 2 && 0 <= j < |r.writes| ensures !IsHit(r, r.writes[j].addr) {
          assert r.writes[j] == if write then c.writes[j + 1] else c.writes[j];
          FilledHit(c, r, s, w, way, r.writes[j].addr);
        }
      } else {
        BypassSingle(c, r);
      }
    }
  }

  lemma {:induction false} BypassSingle(c: Cache, r: Cache)
    requires Single(c) && r.cfg == c.cfg && r.sets == c.sets
    requires r.mshr == c.mshr || (c.mshr != [] && r.mshr == c.mshr[1..])
    requires r.writes == c.writes || (c.writes != [] && r.writes == c.writes[1..])
    ensures Single(r)
  {
    forall s, w ensures Holds(r, s, w) <==> Holds(c, s, w) {}
    forall addr: nat ensures ArrayShape(r) && (IsHit(r, addr) <==> IsHit(c, addr)) { SameTagsHit(c, r, addr); }
  }

  lemma {:induction false} StepSingle(c: State, a: Action)
    requires Single(c) && CleanStep(c, a)
    ensures Single(Step(c, a))
  {
    hide Inv, Single;
    if Allowed(c, a) {
      if a.Tags? {
        TagsSingle(c, a.n, a.acceptedBelow);
      } else if a.Fill? {
        FillSingle(c, a.write, a.victim, a.accepted);
      } else if a.Answer? {
        AnswerSingle(c, a.addr);
      } else {
        KeptSingle(c, Step(c, a));
      }
    }
  }

  lemma {:induction false} RunNext(c: State, actions: seq<Action>, k: nat)
    requires k < |actions|
    ensures Run(c, actions[..k + 1]) == Step(Run(c, actions[..k]), actions[k])
  {
    assert actions[..k + 1][..k] == actions[..k];
  }

  lemma {:induction false} PrefixClean(c: State, actions: seq<Action>, k: nat)
    requires k <= |actions| && CleanRun(c, actions)
    ensures CleanRun(c, actions[..k])
  {
    hide Inv, Run, Step, CleanStep;
    forall j | 0 <= j < k ensures CleanStep(Run(c, actions[..k][..j]), actions[..k][j]) {
      assert actions[..k][..j] == actions[..j];
    }
  }

  lemma {:induction false} RunSingle(c: State, actions: seq<Action>)
    requires Single(c) && CleanRun(c, actions)
    ensures Single(Run(c, actions))
  {
    hide Inv, Step, Single, CleanStep;
    if actions != [] {
      var n := |actions| - 1;
      PrefixClean(c, actions, n);
      RunSingle(c, actions[..n]);
      StepSingle(Run(c, actions[..n]), actions[n]);
    }
  }

  // ------------------------------------------------ fills that clash meet

  predicate DueWrites(c: Cache) {
    forall i :: 0 <= i < |c.writes| ==> DueAt(c.writes[i], c.now)
  }

  // With enough time every write is due.
  lemma {:induction false} AllDue(c: State)
    ensures var t := Step(c, Tick(c.cfg.fillLatency, false));
            t.cfg == c.cfg && t.mshr == c.mshr && t.writes == c.writes && DueWrites(t)
  {
    var t := Step(c, Tick(c.cfg.fillLatency, false));
    assert t.writes == c.writes && t.now == c.now + c.cfg.fillLatency;
  }

  // A victim that is not way h, if there is one.
  function Other(cfg: Config, h: nat): (v: nat)
    requires cfg.numWay >= 1
    ensures v < cfg.numWay && (cfg.numWay >= 2 ==> v != h)
  {
    if h == 0 && cfg.numWay >= 2 then 1 else 0
  }

  // Way h of set s holds the block of an address.
  predicate HeldIn(c: Cache, s: nat, h: nat, addr: nat) {
    Holds(c, s, h) && Same(c.sets[s][h].addr, addr, c.cfg.block)
  }

  // The front write goes to a way other than h.
  lemma {:induction false} FillOther(c: State, s: nat, h: nat, addr: nat) returns (w: nat)
    requires c.cfg.numWay >= 1 && c.writes != [] && DueWrites(c)
    ensures var e := c.writes[0];
            var r := Step(c, Fill(true, Other(c.cfg, h), true));
            && r.cfg == c.cfg && r.mshr == c.mshr && r.writes == c.writes[1..] && DueWrites(r)
            && HeldIn(r, SetIndex(c.cfg, e.addr), w, e.addr)
            && (c.cfg.numWay >= 2 && HeldIn(c, s, h, addr) ==>
                  HeldIn(r, s, h, addr) && (s == SetIndex(c.cfg, e.addr) ==> w != h))
  {
    var e := c.writes[0];
    var r := Step(c, Fill(true, Other(c.cfg, h), true));
    w := FillWay(c, e, Other(c.cfg, h));
    assert DueAt(e, c.now);
    assert r == FillFront(c, true, Other(c.cfg, h), true);
    forall i | 0 <= i < |r.writes| ensures DueAt(r.writes[i], r.now) { assert DueAt(c.writes[i + 1], c.now); }
  }

  // Filling the first n writes, with way h of set s left alone.
  lemma {:induction false} FillSome(c: State, n: nat, s: nat, h: nat, addr: nat) returns (d: seq<Action>)
    requires c.cfg.numWay >= 1 && n <= |c.writes| && DueWrites(c)
    ensures Draining(d)
    ensures var r := Run(c, d);
            && r.cfg == c.cfg && r.mshr == c.mshr && r.writes == c.writes[n..] && DueWrites(r)
            && (c.cfg.numWay >= 2 && HeldIn(c, s, h, addr) ==> HeldIn(r, s, h, addr))
  {
    if n == 0 {
      d := [];
    } else {
      var before := FillSome(c, n - 1, s, h, addr);
      var t := Run(c, before);
      var w := FillOther(t, s, h, addr);
      d := before + [Fill(true, Other(c.cfg, h), true)];
      assert d[..|d| - 1] == before;
    }
  }

  lemma {:induction false} RunAppend(c: State, x: seq<Action>, y: seq<Action>)
    ensures Run(c, x + y) == Run(Run(c, x), y)
  {
    if y == [] {
      assert x + y == x;
    } else {
      var n := |y| - 1;
      assert (x + y)[..|x + y| - 1] == x + y[..n];
      RunAppend(c, x, y[..n]);
    }
  }

  // A register and a write of one block: once the write is filled, the block is
  // held and waited for.
  lemma {:induction false} RegisterClash(c: State, i: nat, j: nat) returns (d: seq<Action>)
    requires c.cfg.numWay >= 1 && DueWrites(c)
    requires i < |c.mshr| && j < |c.writes| && Same(c.mshr[i].addr, c.writes[j].addr, c.cfg.block)
    ensures Draining(d) && !Distinct(Run(c, d))
  {
    var before := FillSome(c, j, 0, 0, 0);
    var t := Run(c, before);
    assert t.writes[0] == c.writes[j];
    var w := FillOther(t, 0, 0, 0);
    d := before + [Fill(true, Other(c.cfg, 0), true)];
    assert d[..|d| - 1] == before;
    var r := Run(c, d);
    HitMeans(r, c.writes[j].addr);
    HitSame(r, c.writes[j].addr, c.mshr[i].addr);
    assert IsHit(r, r.mshr[i].addr);
  }

  lemma {:induction false} TwoWays(c: Cache, s: nat, h: nat, w: nat, a: nat, b: nat)
    requires Same(a, b, c.cfg.block) && h != w && HeldIn(c, s, h, a) && HeldIn(c, SetIndex(c.cfg, b), w, b)
    requires s == SetIndex(c.cfg, a)
    ensures !Distinct(c)
  {
  }

  // Two writes of one block end up in two ways.
  lemma {:induction false} WriteClash(c: State, i: nat, j: nat) returns (d: seq<Action>)
    requires c.cfg.numWay >= 2 && DueWrites(c)
    requires i < j < |c.writes| && Same(c.writes[i].addr, c.writes[j].addr, c.cfg.block)
    ensures Draining(d) && !Distinct(Run(c, d))
  {
    hide Run, Step, DueWrites, Other, HeldIn, Distinct;
    var x := FillSome(c, i, 0, 0, 0);
    var t := Run(c, x);
    var e := c.writes[i];
    assert t.writes[0] == e;
    var h := FillOther(t, 0, 0, 0);
    var a := Fill(true, Other(c.cfg, 0), true);
    var s := SetIndex(c.cfg, e.addr);
    var u := Step(t, a);
    var y := FillSome(u, j - i - 1, s, h, e.addr);
    var v := Run(u, y);
    assert v.writes[0] == c.writes[j];
    var w := FillOther(v, s, h, e.addr);
    var b := Fill(true, Other(c.cfg, h), true);
    d := x + [a] + y + [b];
    RunThree(c, x, a, y, b);
    TwoWays(Step(v, b), s, h, w, e.addr, c.writes[j].addr);
  }

  lemma {:induction false} RunThree(c: State, x: seq<Action>, a: Action, y: seq<Action>, b: Action)
    ensures Run(c, x + [a] + y + [b]) == Step(Run(Step(Run(c, x), a), y), b)
  {
    assert (x + [a])[..|x|] == x;
    RunAppend(c, x + [a], y);
    assert (x + [a] + y + [b])[..|x + [a] + y|] == x + [a] + y;
  }

  lemma {:induction false} RunAfter(c: State, a: Action, d: seq<Action>)
    ensures Run(c, [a] + d) == Run(Step(c, a), d)
  {
    RunAppend(c, [a], d);
    assert [a][..0] == [] && Run(c, []) == c;
  }

  // Unless the fills are apart, writing them out breaks distinctness.
  lemma {:induction false} ClashMeets(c: State) returns (d: seq<Action>)
    requires !FillsApart(c)
    ensures Draining(d) && !Distinct(Run(c, d))
  {
    hide Inv, Run, Step, Distinct, DueWrites;
    var tick := Tick(c.cfg.fillLatency, false);
    var t := Step(c, tick);
    AllDue(c);
    var after;
    if c.cfg.numWay >= 1 && !Apart(c.cfg, c.mshr, c.writes) {
      var i, j :| 0 <= i < |c.mshr| && 0 <= j < |c.writes| && Same(c.mshr[i].addr, c.writes[j].addr, c.cfg.block);
      after := RegisterClash(t, i, j);
    } else {
      var i, j :| 0 <= i < j < |c.writes| && Same(c.writes[i].addr, c.writes[j].addr, c.cfg.block);
      after := WriteClash(t, i, j);
    }
    d := [tick] + after;
    RunAfter(c, tick, after);
  }

  // ------------------------------------------------------------- main theorems

  lemma {:induction false} StartSingle(cfg: Config, uppers: nat)
    ensures Inv(Start(cfg, uppers)) && Single(Start(cfg, uppers))
  {
    StartInv(cfg, uppers);
  }

  // Clean misses are enough, for a cache of any kind.
  lemma {:induction false} CleanRunsStayDistinct(cfg: Config, uppers: nat, actions: seq<Action>)
    requires CleanRun(Reached(cfg, uppers, []), actions)
    ensures Distinct(Reached(cfg, uppers, actions))
  {
    StartSingle(cfg, uppers);
    RunSingle(Start(cfg, uppers), actions);
  }

  // A draining run is clean: it has no misses.
  lemma {:induction false} DrainSingle(c: State, d: seq<Action>)
    requires Single(c) && Draining(d)
    ensures Single(Run(c, d))
  {
    RunSingle(c, d);
  }

  // The first miss that is not clean leaves fills that clash.
  lemma {:induction false} UncleanClash(c: State, a: Action)
    requires Single(c) && !CleanStep(c, a)
    ensures !FillsApart(Step(c, a))
  {
    var (t, misses) := HitPassStep(c, 0, ReadyTags(c, a.n));
    HitPassSingle(c, 0, ReadyTags(c, a.n));
    PassApart(t, 0, misses, a.acceptedBelow);
  }

  lemma {:induction false} CleanExtends(c: State, actions: seq<Action>)
    requires actions != [] && CleanRun(c, actions[..|actions| - 1])
    requires CleanStep(Run(c, actions[..|actions| - 1]), actions[|actions| - 1])
    ensures CleanRun(c, actions)
  {
    hide CleanStep, Step;
    var n := |actions| - 1;
    forall k | 0 <= k <= n ensures CleanStep(Run(c, actions[..k]), actions[k]) {
      if k < n {
        assert actions[..n][..k] == actions[..k];
        assert CleanStep(Run(c, actions[..n][..k]), actions[..n][k]);
      }
    }
  }

  lemma {:induction false} UncleanNonempty(c: State, actions: seq<Action>)
    requires !CleanRun(c, actions)
    ensures actions != []
  {
  }

  lemma {:induction false} FirstUnclean(c: State, actions: seq<Action>) returns (k: nat)
    requires Single(c) && !CleanRun(c, actions)
    ensures k < |actions| && Single(Run(c, actions[..k])) && !CleanStep(Run(c, actions[..k]), actions[k])
  {
    hide Inv, Run, Single, CleanRun, CleanStep, Step;
    UncleanNonempty(c, actions);
    var n := |actions| - 1;
    if CleanRun(c, actions[..n]) {
      if CleanStep(Run(c, actions[..n]), actions[n]) { CleanExtends(c, actions); }
      RunSingle(c, actions[..n]);
      k := n;
    } else {
      k := FirstUnclean(c, actions[..n]);
      assert actions[..n][..k] == actions[..k];
    }
  }

  // Distinct at each point of a run, and however its fills are completed from there.
  ghost predicate StaysDistinct(c: State, actions: seq<Action>) {
    forall k, d :: 0 <= k <= |actions| && Draining(d) ==> Distinct(Run(Run(c, actions[..k]), d))
  }

  lemma {:induction false} UncleanMeets(c: State, actions: seq<Action>)
    requires Single(c) && !CleanRun(c, actions)
    ensures !StaysDistinct(c, actions)
  {
    hide Inv, Run, Step, CleanStep, Distinct, FillsApart, Single, CleanRun;
    var k := FirstUnclean(c, actions);
    UncleanClash(Run(c, actions[..k]), actions[k]);
    RunNext(c, actions, k);
    var d := ClashMeets(Run(c, actions[..k + 1]));
    assert !Distinct(Run(Run(c, actions[..k + 1]), d));
  }

  // And clean misses are needed: from the first that is not, time and fills alone
  // lead to a block in two ways, or to a block both held and waited for.
  lemma {:induction false} DistinctExactlyWhenClean(cfg: Config, uppers: nat, actions: seq<Action>)
    ensures StaysDistinct(Reached(cfg, uppers, []), actions) <==> CleanRun(Reached(cfg, uppers, []), actions)
  {
    var c := Reached(cfg, uppers, []);
    StartSingle(cfg, uppers);
    if CleanRun(c, actions) {
      forall k, d | 0 <= k <= |actions| && Draining(d) ensures Distinct(Run(Run(c, actions[..k]), d)) {
        PrefixClean(c, actions, k);
        RunSingle(c, actions[..k]);
        DrainSingle(Run(c, actions[..k]), d);
      }
    } else {
      UncleanMeets(c, actions);
    }
  }

  // ---------------------------------------------- a run that holds a block twice

  function TwoWayConfig(): Config {
    Config(64, 64, 1, 2, 1, 0, 1, 1, 0, 0, 0, false)
  }

  function Reader(): Request {
    Request(0, 0, Load, true, true, false, [])
  }

  function Writer(): Request {
    Request(0, 0, AccessType.Write, true, false, false, [])
  }

  // A read of block 0 misses and waits; then a writeback of the block misses.
  function ClashingRun(): seq<Action> {
    [Arrival(0, ReadQueue, Reader()), Begin(0, ReadQueue, 1), Tags(1, [true])]
    + [Arrival(0, WriteQueue, Writer()), Begin(0, WriteQueue, 1), Tags(1, [])]
  }

  function At(uppers: Queues, tags: seq<Lookup>, mshr: seq<Entry>, writes: seq<Entry>, ways: seq<Way>,
              asked: multiset<nat>, wrote: seq<Dirtied>): Cache {
    Cache(TwoWayConfig(), 0, true, [uppers], [], tags, [], mshr, writes, [ways], asked, {}, [], [Item(0, 0, true, [], 0)],
          wrote, [])
  }

  function ReadLookup(): Lookup {
    Lookup(0, 0, Load, false, false, true, false, 0, [], [0])
  }

  function WriteLookup(): Lookup {
    Lookup(0, 0, AccessType.Write, false, false, true, false, 0, [], [])
  }

  // The cache while the read of block 0 is on its way ...
  function Reading(uppers: Queues, tags: seq<Lookup>, mshr: seq<Entry>, asked: multiset<nat>): Cache {
    At(uppers, tags, mshr, [], EmptyWays(2), asked, [])
  }

  // ... and once it waits for its data.
  function Waiting(uppers: Queues, tags: seq<Lookup>, writes: seq<Entry>, ways: seq<Way>, wrote: seq<Dirtied>): Cache {
    At(uppers, tags, [Allocate(ReadLookup())], writes, ways, multiset{0}, wrote)
  }

  function Empty(): Queues {
    Queues([], [], [])
  }

  function Line(dirty: bool): Way {
    Way(true, dirty, false, 0)
  }

  function Written(): Entry {
    Allocate(WriteLookup()).(promise := Some(0))
  }

  lemma {:induction false} ReadArrives(c: Cache)
    requires c == Start(TwoWayConfig(), 1)
    ensures Arrive(c, 0, ReadQueue, Reader()).0 == Reading(Queues([], [Reader()], []), [], [], multiset{})
  {
    assert c.uppers == [Empty()];
    assert c.sets == [EmptyWays(2)];
    assert AddQueue([], 1, Reader()).0 == [Reader()];
  }

  lemma {:induction false} ReadBegins(c: Cache)
    requires c == Reading(Queues([], [Reader()], []), [], [], multiset{})
    ensures BeginUpper(c, 0, ReadQueue, 1) == Reading(Empty(), [ReadLookup()], [], multiset{})
  {
    var q := [Reader()];
    assert q[1..] == [] && q[..1] == q && q[..0] == [];
    assert StartCount(c, q, 1) == 1;
    assert FromRequests(q, 0, 0) == [ReadLookup()];
  }

  // The read misses, and the request below is accepted.
  lemma {:induction false} ReadMisses(c: Cache)
    requires c == Reading(Empty(), [ReadLookup()], [], multiset{})
    ensures TagCheck(c, 1, [true]) == Waiting(Empty(), [], [], EmptyWays(2), [])
  {
    assert ReadyTags(c, 1) == 1;
    assert !IsHit(c, 0);
    assert HitPass(c, 0, 1) == (c, 1);
    var r := HandleMiss(c, ReadLookup(), true).0;
    assert [true][0];
    assert MissPass(c, 0, 1, [true]) == EraseTag(r, 0);
  }

  lemma {:induction false} WriteArrives(c: Cache)
    requires c == Waiting(Empty(), [], [], EmptyWays(2), [])
    ensures Arrive(c, 0, WriteQueue, Writer()).0 == Waiting(Queues([Writer()], [], []), [], [], EmptyWays(2), [])
  {
    assert AddQueue([], 1, Writer()).0 == [Writer()];
  }

  lemma {:induction false} WriteBegins(c: Cache)
    requires c == Waiting(Queues([Writer()], [], []), [], [], EmptyWays(2), [])
    ensures BeginUpper(c, 0, WriteQueue, 1) == Waiting(Empty(), [WriteLookup()], [], EmptyWays(2), [])
  {
    var q := [Writer()];
    assert q[1..] == [] && q[..1] == q && q[..0] == [];
    assert StartCount(c, q, 1) == 1;
    assert FromRequests(q, 0, 0) == [WriteLookup()];
  }

  // The writeback misses too: it becomes a fill, whatever the registers hold.
  lemma {:induction false} WriteMisses(c: Cache)
    requires c == Waiting(Empty(), [WriteLookup()], [], EmptyWays(2), [])
    ensures TagCheck(c, 1, []) == Waiting(Empty(), [], [Written()], EmptyWays(2), [Dirtied(0, 0)])
  {
    assert ReadyTags(c, 1) == 1;
    assert !IsHit(c, 0);
    assert HitPass(c, 0, 1) == (c, 1);
    assert MissPass(c, 0, 1, []) == EraseTag(HandleWrite(c, WriteLookup()), 0);
  }

  // The writeback is filled: its block is held, and still waited for.
  lemma {:induction false} WriteFills(c: Cache)
    requires c == Waiting(Empty(), [], [Written()], EmptyWays(2), [Dirtied(0, 0)])
    ensures FillFront(c, true, 0, true) == Waiting(Empty(), [], [], [Line(true), EmptyWays(2)[1]], [Dirtied(0, 0)])
  {
    hide HandleFill;
    assert DueAt(Written(), 0);
    WriteHandled(c);
    assert c.writes[1..] == [];
  }

  lemma {:induction false} WriteHandled(c: Cache)
    requires c.cfg == TwoWayConfig() && c.sets == [EmptyWays(2)] && c.out == [] && c.evicted == []
    ensures HandleFill(c, Written(), 0, true) == (c.(sets := [[Line(true), EmptyWays(2)[1]]]), true)
  {
    var r := HandleFill(c, Written(), 0, true).0;
    assert FillWay(c, Written(), 0) == 0;
    assert EmptyWays(2)[0 := Line(true)] == [Line(true), EmptyWays(2)[1]];
    assert r.sets == [[Line(true), EmptyWays(2)[1]]];
    assert r.out == [];
  }

  // Its data arrives, and the register is filled as well, into the other way.
  lemma {:induction false} ReadFills(c: Cache)
    requires c == Waiting(Empty(), [], [], [Line(true), EmptyWays(2)[1]], [Dirtied(0, 0)])
    ensures BlockOf(c.cfg, 0) in c.asked
    ensures FillFront(FinishPacket(c, 0), false, 0, true).sets == [[Line(true), Line(false)]]
  {
    var r := FinishPacket(c, 0);
    var ws := [Line(true), EmptyWays(2)[1]];
    assert r.mshr == [Allocate(ReadLookup()).(promise := Some(0))];
    assert DueAt(r.mshr[0], 0);
    assert FirstInvalid(ws) == 1 by { assert ws[1..] == [EmptyWays(2)[1]]; }
    assert FillWay(r, r.mshr[0], 0) == 1;
    assert ws[1 := Line(false)] == [Line(true), Line(false)];
    assert FillFront(r, false, 0, true).sets == r.sets[0 := ws[1 := Line(false)]];
  }

  // What each kind of action does, for those that occur here.
  lemma {:induction false} StepIs(c: State, a: Action)
    requires Allowed(c, a)
    ensures a.Arrival? ==> Step(c, a) == Arrive(c, a.u, a.s, a.x).0
    ensures a.Begin? ==> Step(c, a) == BeginUpper(c, a.u, a.s, a.n)
    ensures a.Tags? ==> Step(c, a) == TagCheck(c, a.n, a.acceptedBelow)
    ensures a.Fill? ==> Step(c, a) == FillFront(c, a.write, a.victim, a.accepted)
    ensures a.Answer? ==> Step(c, a) == FinishPacket(c, a.addr)
  {
  }

  lemma {:induction false} RunThreeSteps(c: State, x: Action, y: Action, z: Action)
    ensures Run(c, [x, y, z]) == Step(Step(Step(c, x), y), z)
  {
    assert [x, y, z] == [x] + [y, z] && [y, z] == [y] + [z] && [z] == [z] + [];
    RunAfter(c, x, [y, z]);
    RunAfter(Step(c, x), y, [z]);
    RunAfter(Step(Step(c, x), y), z, []);
  }

  lemma {:induction false} ReadWaits(c: State) returns (r: State)
    requires c == Start(TwoWayConfig(), 1)
    ensures r == Run(c, [Arrival(0, ReadQueue, Reader()), Begin(0, ReadQueue, 1), Tags(1, [true])])
    ensures r == Waiting(Empty(), [], [], EmptyWays(2), [])
  {
    hide Inv, Run, Step, Arrive, BeginUpper, TagCheck, EmptyWays, Allocate;
    var x, y, z := Arrival(0, ReadQueue, Reader()), Begin(0, ReadQueue, 1), Tags(1, [true]);
    ReadArrives(c);
    assert |c.uppers| == 1;
    StepIs(c, x);
    var t := Step(c, x);
    ReadBegins(t);
    StepIs(t, y);
    var u := Step(t, y);
    ReadMisses(u);
    StepIs(u, z);
    RunThreeSteps(c, x, y, z);
    r := Step(u, z);
  }

  lemma {:induction false} WriteWaits(c: State) returns (r: State)
    requires c == Waiting(Empty(), [], [], EmptyWays(2), [])
    ensures r == Run(c, [Arrival(0, WriteQueue, Writer()), Begin(0, WriteQueue, 1), Tags(1, [])])
    ensures r == Waiting(Empty(), [], [Written()], EmptyWays(2), [Dirtied(0, 0)])
  {
    hide Inv, Run, Step, Arrive, BeginUpper, TagCheck, EmptyWays, Allocate;
    var x, y, z := Arrival(0, WriteQueue, Writer()), Begin(0, WriteQueue, 1), Tags(1, []);
    WriteArrives(c);
    StepIs(c, x);
    var t := Step(c, x);
    WriteBegins(t);
    StepIs(t, y);
    var u := Step(t, y);
    WriteMisses(u);
    StepIs(u, z);
    RunThreeSteps(c, x, y, z);
    r := Step(u, z);
  }

  lemma {:induction false} ClashReached(c: State) returns (r: State)
    requires c == Start(TwoWayConfig(), 1)
    ensures r == Run(c, ClashingRun()) && r == Waiting(Empty(), [], [Written()], EmptyWays(2), [Dirtied(0, 0)])
  {
    hide Inv, Run, Start, Waiting, Written;
    var t := ReadWaits(c);
    r := WriteWaits(t);
    RunAppend(c, [Arrival(0, ReadQueue, Reader()), Begin(0, ReadQueue, 1), Tags(1, [true])],
              [Arrival(0, WriteQueue, Writer()), Begin(0, WriteQueue, 1), Tags(1, [])]);
  }

  lemma {:induction false} HeldAndWaited(c: Cache)
    requires c == Waiting(Empty(), [], [], [Line(true), EmptyWays(2)[1]], [Dirtied(0, 0)])
    ensures !Distinct(c)
  {
    assert c.mshr[0].addr == 0;
    assert Holds(c, 0, 0);
    HitMeans(c, 0);
  }

  // What the fills make of the clash.
  lemma {:induction false} ClashFills(c: State)
    requires c == Waiting(Empty(), [], [Written()], EmptyWays(2), [Dirtied(0, 0)])
    ensures !Distinct(Run(c, [Fill(true, 0, true)]))
    ensures Run(c, [Fill(true, 0, true), Answer(0), Fill(false, 0, true)]).sets == [[Line(true), Line(false)]]
  {
    hide Inv, Run, Step, Distinct, FillFront, FinishPacket, BlockOf, EmptyWays, Allocate;
    var x, y, z := Fill(true, 0, true), Answer(0), Fill(false, 0, true);
    WriteFills(c);
    StepIs(c, x);
    var t := Step(c, x);
    HeldAndWaited(t);
    RunOne(c, x);
    ReadFills(t);
    StepIs(t, y);
    KeptWays(t);
    StepIs(Step(t, y), z);
    RunThreeSteps(c, x, y, z);
  }

  lemma {:induction false} KeptWays(c: Cache)
    ensures FinishPacket(c, 0).cfg == c.cfg
  {
  }

  lemma {:induction false} RunOne(c: State, a: Action)
    ensures Run(c, [a]) == Step(c, a)
  {
    assert [a][..0] == [] && Run(c, []) == c;
  }

  // A writeback that meets a register of its block: the block is held and waited
  // for, and then held twice.
  lemma {:induction false} WritebackCopiesBlock()
    ensures var c := Reached(TwoWayConfig(), 1, ClashingRun());
            && !CleanRun(Reached(TwoWayConfig(), 1, []), ClashingRun())
            && !Distinct(Run(c, [Fill(true, 0, true)]))
            && var r := Run(c, [Fill(true, 0, true), Answer(0), Fill(false, 0, true)]);
               Holds(r, 0, 0) && Holds(r, 0, 1) && Same(r.sets[0][0].addr, r.sets[0][1].addr, r.cfg.block)
  {
    hide Inv, Step, Distinct, Single, CleanRun, Waiting, Written;
    var c := Reached(TwoWayConfig(), 1, []);
    var r := ClashReached(c);
    ClashFills(r);
    if CleanRun(c, ClashingRun()) {
      StartSingle(TwoWayConfig(), 1);
      RunSingle(c, ClashingRun());
      DrainSingle(r, [Fill(true, 0, true)]);
    }
  }
}
