// What becomes of the writes a cache takes: the block stays marked, in the array
// or in an entry on its way there, until it has been written back; and exactly
// which merge of a miss register makes the cache forget one.
module CacheWrites {
  import opened Prelude
  import opened SetUnion
  import opened Channels
  import opened Algorithms
  import opened CacheModel
  import opened CacheInvariant
  import opened CacheSteps
  import opened CacheRuns
  import opened CacheAnswers
  import opened CacheDistinct

  // ------------------------------------------------------- where a write is

  ghost predicate DirtyIn(c: Cache, addr: nat) {
    exists s, w :: Holds(c, s, w) && c.sets[s][w].dirty && Same(c.sets[s][w].addr, addr, c.cfg.block)
  }

  predicate WriteIn(cfg: Config, q: seq<Entry>, addr: nat) {
    exists i :: 0 <= i < |q| && q[i].kind.Write? && Same(q[i].addr, addr, cfg.block)
  }

  predicate WrittenBack(cfg: Config, evicted: seq<nat>, since: nat, addr: nat) {
    exists i :: since <= i < |evicted| && Same(evicted[i], addr, cfg.block)
  }

  // The block is dirty, is about to be filled dirty, or has been written back
  // after the write was taken.
  ghost predicate Remembered(c: Cache, w: Dirtied) {
    && w.since <= |c.evicted|
    && (|| DirtyIn(c, w.addr)
        || WriteIn(c.cfg, c.mshr, w.addr)
        || WriteIn(c.cfg, c.writes, w.addr)
        || WrittenBack(c.cfg, c.evicted, w.since, w.addr))
  }

  ghost predicate AllRemembered(c: Cache) {
    forall k :: 0 <= k < |c.wrote| ==> Remembered(c, c.wrote[k])
  }

  // A write of the block that nothing but its register stands for.
  predicate Unsaved(c: Cache, w: Dirtied, addr: nat) {
    Same(w.addr, addr, c.cfg.block) && !WrittenBack(c.cfg, c.evicted, w.since, w.addr)
  }

  predicate SomeUnsaved(c: Cache, addr: nat) {
    exists k :: 0 <= k < |c.wrote| && Unsaved(c, c.wrote[k], addr)
  }

  // Only a cache that treats writes like reads has registers for them.
  predicate WriteRegisters(c: Cache) {
    forall i :: 0 <= i < |c.mshr| && c.mshr[i].kind.Write? ==> c.cfg.matchOffset && SomeUnsaved(c, c.mshr[i].addr)
  }

  ghost predicate Noted(c: Cache) {
    AllRemembered(c) && WriteRegisters(c)
  }

  // A read of a block is merged into the register of a write of it.
  predicate Forgets(c: Cache, x: Lookup) {
    var m := FindEntry(c.mshr, x.addr, c.cfg.block);
    m < |c.mshr| && c.mshr[m].kind.Write? && !x.kind.Prefetch? && !x.kind.Write?
  }

  // ------------------------------------------------------------ small moves

  lemma {:induction false} WriteInSame(cfg: Config, q: seq<Entry>, a: nat, b: nat)
    requires Same(a, b, cfg.block) && WriteIn(cfg, q, a)
    ensures WriteIn(cfg, q, b)
  {
    var i :| 0 <= i < |q| && q[i].kind.Write? && Same(q[i].addr, a, cfg.block);
    assert Same(q[i].addr, b, cfg.block);
  }

  lemma {:induction false} WriteInUpdate(cfg: Config, q: seq<Entry>, m: nat, e: Entry, addr: nat)
    requires m < |q| && Same(e.addr, q[m].addr, cfg.block) && (q[m].kind.Write? ==> e.kind.Write?)
    requires WriteIn(cfg, q, addr)
    ensures WriteIn(cfg, q[m := e], addr)
  {
    var i :| 0 <= i < |q| && q[i].kind.Write? && Same(q[i].addr, addr, cfg.block);
    assert q[m := e][i].kind.Write? && Same(q[m := e][i].addr, addr, cfg.block);
  }

  lemma {:induction false} WriteInAppend(cfg: Config, q: seq<Entry>, e: Entry, addr: nat)
    requires WriteIn(cfg, q, addr) || (e.kind.Write? && Same(e.addr, addr, cfg.block))
    ensures WriteIn(cfg, q + [e], addr)
  {
    var z := q + [e];
    if WriteIn(cfg, q, addr) {
      var i :| 0 <= i < |q| && q[i].kind.Write? && Same(q[i].addr, addr, cfg.block);
      assert z[i] == q[i];
    } else {
      assert z[|q|] == e;
    }
  }

  lemma {:induction false} WriteInRest(cfg: Config, q: seq<Entry>, addr: nat)
    requires q != [] && WriteIn(cfg, q, addr)
    ensures WriteIn(cfg, q[1..], addr) || (q[0].kind.Write? && Same(q[0].addr, addr, cfg.block))
  {
    var i :| 0 <= i < |q| && q[i].kind.Write? && Same(q[i].addr, addr, cfg.block);
    if i > 0 { assert q[1..][i - 1] == q[i]; }
  }

  lemma {:induction false} BackMore(cfg: Config, evicted: seq<nat>, more: seq<nat>, since: nat, addr: nat)
    requires WrittenBack(cfg, evicted, since, addr)
    ensures WrittenBack(cfg, evicted + more, since, addr)
  {
    var i :| since <= i < |evicted| && Same(evicted[i], addr, cfg.block);
    assert (evicted + more)[i] == evicted[i];
  }

  // ------------------------------------- steps that leave blocks and entries alone

  lemma {:induction false} UntouchedNoted(c: Cache, r: Cache)
    requires Noted(c) && r.cfg == c.cfg && r.sets == c.sets && r.mshr == c.mshr && r.writes == c.writes
    requires r.wrote == c.wrote && r.evicted == c.evicted
    ensures Noted(r)
  {
    forall s, w ensures Holds(r, s, w) <==> Holds(c, s, w) {}
    forall k | 0 <= k < |r.wrote| ensures Remembered(r, r.wrote[k]) { assert Remembered(c, c.wrote[k]); }
    forall i | 0 <= i < |r.mshr| && r.mshr[i].kind.Write? ensures SomeUnsaved(r, r.mshr[i].addr) {
      var k :| 0 <= k < |c.wrote| && Unsaved(c, c.wrote[k], c.mshr[i].addr);
      assert Unsaved(r, r.wrote[k], r.mshr[i].addr);
    }
  }

  lemma {:induction false} SomeUnsavedKept(c: Cache, r: Cache, a: nat, b: nat)
    requires SomeUnsaved(c, a) && Same(a, b, c.cfg.block) && r.cfg == c.cfg && c.wrote <= r.wrote && r.evicted == c.evicted
    ensures SomeUnsaved(r, b)
  {
    var k :| 0 <= k < |c.wrote| && Unsaved(c, c.wrote[k], a);
    assert Unsaved(r, r.wrote[k], b);
  }

  // The registers change places.
  lemma {:induction false} AnswerNoted(c: Cache, addr: nat)
    requires Noted(c)
    ensures Noted(FinishPacket(c, addr))
  {
    var r := FinishPacket(c, addr);
    var m, f := FindEntry(c.mshr, addr, c.cfg.block), FirstUnreturned(c.mshr);
    if r != c {
      forall s, w ensures Holds(r, s, w) <==> Holds(c, s, w) {}
      forall k | 0 <= k < |r.wrote| ensures Remembered(r, r.wrote[k]) {
        var w := c.wrote[k];
        assert Remembered(c, w);
        if WriteIn(c.cfg, c.mshr, w.addr) {
          var i :| 0 <= i < |c.mshr| && c.mshr[i].kind.Write? && Same(c.mshr[i].addr, w.addr, c.cfg.block);
          var j := if i == m then f else if i == f then m else i;
          assert r.mshr[j].kind.Write? && Same(r.mshr[j].addr, w.addr, c.cfg.block);
        }
      }
      forall i | 0 <= i < |r.mshr| && r.mshr[i].kind.Write? ensures c.cfg.matchOffset && SomeUnsaved(r, r.mshr[i].addr) {
        var j := if i == f then m else if i == m then f else i;
        SomeUnsavedKept(c, r, c.mshr[j].addr, r.mshr[i].addr);
      }
    }
  }

  // ------------------------------------------------------------------- fills

  // A block that was dirty is still dirty, or its way was taken and it was the
  // last to be written back.
  lemma {:induction false} FillDirty(c: Cache, e: Entry, victim: nat, accepted: bool, addr: nat)
    requires ArrayShape(c) && victim <= c.cfg.numWay && HandleFill(c, e, victim, accepted).1 && DirtyIn(c, addr)
    ensures var r := HandleFill(c, e, victim, accepted).0;
            DirtyIn(r, addr) || (r.evicted != [] && |r.evicted| > |c.evicted| && Same(r.evicted[|c.evicted|], addr, c.cfg.block))
  {
    var r := HandleFill(c, e, victim, accepted).0;
    var s, w :| Holds(c, s, w) && c.sets[s][w].dirty && Same(c.sets[s][w].addr, addr, c.cfg.block);
    if !(s == SetIndex(c.cfg, e.addr) && w == FillWay(c, e, victim)) {
      assert Holds(r, s, w) && r.sets[s][w] == c.sets[s][w];
    }
  }

  // A write entry that is filled leaves its block dirty.
  lemma {:induction false} FillWritten(c: Cache, e: Entry, victim: nat, accepted: bool)
    requires ArrayShape(c) && victim < c.cfg.numWay && HandleFill(c, e, victim, accepted).1 && e.kind.Write?
    ensures DirtyIn(HandleFill(c, e, victim, accepted).0, e.addr)
  {
    var r := HandleFill(c, e, victim, accepted).0;
    var s, w := SetIndex(c.cfg, e.addr), FillWay(c, e, victim);
    assert w < |c.sets[s]|;
    assert Holds(r, s, w) && r.sets[s][w].dirty;
  }

  // Only the block that was written back is clean now.
  lemma {:induction false} FillEvicts(c: Cache, e: Entry, victim: nat, accepted: bool)
    requires ArrayShape(c) && victim <= c.cfg.numWay
    ensures var r := HandleFill(c, e, victim, accepted).0;
            && c.evicted <= r.evicted && r.mshr == c.mshr && r.writes == c.writes && r.wrote == c.wrote && r.cfg == c.cfg
            && (r.evicted != c.evicted ==>
                  |r.evicted| == |c.evicted| + 1 &&
                  exists s, w :: Holds(c, s, w) && c.sets[s][w].addr == r.evicted[|c.evicted|])
  {
    var r := HandleFill(c, e, victim, accepted).0;
    if r.evicted != c.evicted {
      var s, w := SetIndex(c.cfg, e.addr), FillWay(c, e, victim);
      assert Holds(c, s, w) && c.sets[s][w].addr == r.evicted[|c.evicted|];
    }
  }

  lemma {:induction false} DirtySame(c: Cache, r: Cache, a: nat, b: nat)
    requires DirtyIn(c, a) && Same(a, b, c.cfg.block) && r.cfg == c.cfg && r.sets == c.sets
    ensures DirtyIn(r, b)
  {
    var s, w :| Holds(c, s, w) && c.sets[s][w].dirty && Same(c.sets[s][w].addr, a, c.cfg.block);
    assert Holds(r, s, w);
  }

  lemma {:induction false} FillRemembers(c: Cache, write: bool, victim: nat, accepted: bool, w: Dirtied)
    requires ArrayShape(c) && victim <= c.cfg.numWay && (victim == c.cfg.numWay ==> !FrontWrites(c, write))
    requires Remembered(c, w)
    ensures Remembered(FillFront(c, write, victim, accepted), w)
  {
    hide HandleFill, DirtyIn, WriteIn, WrittenBack;
    var r := FillFront(c, write, victim, accepted);
    var q := if write then c.writes else c.mshr;
    if r != c {
      var e := q[0];
      var t := HandleFill(c, e, victim, accepted).0;
      FillEvicts(c, e, victim, accepted);
      if DirtyIn(c, w.addr) {
        FillDirty(c, e, victim, accepted, w.addr);
        if DirtyIn(t, w.addr) { DirtySame(t, r, w.addr, w.addr); } else { LastBack(c.cfg, r.evicted, |c.evicted|, w); }
      } else if WrittenBack(c.cfg, c.evicted, w.since, w.addr) {
        BackMore(c.cfg, c.evicted, r.evicted[|c.evicted|..], w.since, w.addr);
        assert r.evicted == c.evicted + r.evicted[|c.evicted|..];
      } else if WriteIn(c.cfg, q, w.addr) {
        WriteInRest(c.cfg, q, w.addr);
        if !WriteIn(c.cfg, q[1..], w.addr) {
          FillWritten(c, e, victim, accepted);
          DirtySame(t, r, e.addr, w.addr);
        }
      }
    }
  }

  lemma {:induction false} LastBack(cfg: Config, evicted: seq<nat>, i: nat, w: Dirtied)
    requires w.since <= i < |evicted| && Same(evicted[i], w.addr, cfg.block)
    ensures WrittenBack(cfg, evicted, w.since, w.addr)
  {
  }

  // No block that a register waits for is in the array, so none is written back.
  lemma {:induction false} FillUnsaved(c: Cache, write: bool, victim: nat, accepted: bool, i: nat)
    requires ArrayOk(c) && c.cfg.matchOffset && victim <= c.cfg.numWay && i < |c.mshr| && SomeUnsaved(c, c.mshr[i].addr)
    ensures SomeUnsaved(FillFront(c, write, victim, accepted), c.mshr[i].addr)
  {
    hide HandleFill;
    var r := FillFront(c, write, victim, accepted);
    var a := c.mshr[i].addr;
    var k :| 0 <= k < |c.wrote| && Unsaved(c, c.wrote[k], a);
    if r != c {
      FillEvicts(c, (if write then c.writes else c.mshr)[0], victim, accepted);
      forall j | c.wrote[k].since <= j < |r.evicted| ensures !Same(r.evicted[j], c.wrote[k].addr, c.cfg.block) {
        if j < |c.evicted| {
          assert r.evicted[j] == c.evicted[j];
        } else {
          var s, w :| Holds(c, s, w) && c.sets[s][w].addr == r.evicted[|c.evicted|];
          HeldElsewhere(c, s, w, a);
        }
      }
    }
    assert Unsaved(r, r.wrote[k], a);
  }

  lemma {:induction false} HeldElsewhere(c: Cache, s: int, w: int, addr: nat)
    requires ArrayOk(c) && Holds(c, s, w) && !IsHit(c, addr)
    ensures !Same(c.sets[s][w].addr, addr, c.cfg.block)
  {
    HitMeans(c, addr);
  }

  lemma {:induction false} FillNoted(c: Cache, write: bool, victim: nat, accepted: bool)
    requires Noted(c) && ArrayShape(c) && ArrayOk(c) && victim <= c.cfg.numWay && (victim == c.cfg.numWay ==> !FrontWrites(c, write))
    ensures Noted(FillFront(c, write, victim, accepted))
  {
    hide Remembered, SomeUnsaved, ArrayOk, HandleFill;
    var r := FillFront(c, write, victim, accepted);
    FillKeepsLists(c, write, victim, accepted);
    forall k | 0 <= k < |r.wrote| ensures Remembered(r, r.wrote[k]) { FillRemembers(c, write, victim, accepted, c.wrote[k]); }
    forall i | 0 <= i < |r.mshr| && r.mshr[i].kind.Write? ensures c.cfg.matchOffset && SomeUnsaved(r, r.mshr[i].addr) {
      var j := if r.mshr == c.mshr then i else i + 1;
      assert r.mshr[i] == c.mshr[j];
      FillUnsaved(c, write, victim, accepted, j);
    }
  }

  lemma {:induction false} FillKeepsLists(c: Cache, write: bool, victim: nat, accepted: bool)
    requires ArrayOk(c) && victim <= c.cfg.numWay
    ensures ArrayShape(c)
    ensures var r := FillFront(c, write, victim, accepted);
            r.cfg == c.cfg && r.wrote == c.wrote && (r.mshr == c.mshr || (c.mshr != [] && r.mshr == c.mshr[1..]))
  {
  }

  // -------------------------------------------------------------------- hits

  lemma {:induction false} HitDirty(c: Cache, x: Lookup, addr: nat)
    requires ArrayShape(c) && IsHit(c, x.addr) && (DirtyIn(c, addr) || (x.kind.Write? && Same(x.addr, addr, c.cfg.block)))
    ensures DirtyIn(Hit(c, x), addr)
  {
    var r := Hit(c, x);
    if DirtyIn(c, addr) {
      var s, w :| Holds(c, s, w) && c.sets[s][w].dirty && Same(c.sets[s][w].addr, addr, c.cfg.block);
      assert Holds(r, s, w) && r.sets[s][w].dirty;
    } else {
      var s := SetIndex(c.cfg, x.addr);
      var w := FindWay(c.sets[s], x.addr, c.cfg.block);
      assert Holds(r, s, w) && r.sets[s][w].dirty;
    }
  }

  lemma {:induction false} HitNoted(c: Cache, i: nat)
    requires Noted(c) && ArrayShape(c) && i < |c.tags| && IsHit(c, c.tags[i].addr)
    ensures Noted(EraseTag(Hit(c, c.tags[i]), i))
  {
    hide DirtyIn, SomeUnsaved, WriteIn, WrittenBack, IsHit;
    var x := c.tags[i];
    var r := Hit(c, x);
    HitFrame(c, x);
    forall k | 0 <= k < |r.wrote| ensures Remembered(r, r.wrote[k]) {
      if k < |c.wrote| {
        assert Remembered(c, c.wrote[k]);
        if DirtyIn(c, c.wrote[k].addr) { HitDirty(c, x, c.wrote[k].addr); }
      } else {
        HitDirty(c, x, x.addr);
      }
    }
    forall j | 0 <= j < |r.mshr| && r.mshr[j].kind.Write? ensures c.cfg.matchOffset && SomeUnsaved(r, r.mshr[j].addr) {
      SomeUnsavedKept(c, r, c.mshr[j].addr, r.mshr[j].addr);
    }
    UntouchedNoted(r, EraseTag(r, i));
  }

  lemma {:induction false} HitFrame(c: Cache, x: Lookup)
    requires ArrayShape(c) && IsHit(c, x.addr)
    ensures var r := Hit(c, x);
            && r.cfg == c.cfg && r.mshr == c.mshr && r.writes == c.writes && r.evicted == c.evicted && r.tags == c.tags
            && r.wrote == Wrote(c, x)
  {
  }

  // ------------------------------------------------------------------- misses

  // What a miss does to the history and to the registers.
  lemma {:induction false} MissFrame(c: Cache, x: Lookup, accepted: bool)
    requires LookupOk(x)
    ensures var (r, ok) := DoMiss(c, x, accepted);
            && r.cfg == c.cfg && r.sets == c.sets && r.evicted == c.evicted && r.tags == c.tags
            && r.wrote == (if ok then Wrote(c, x) else c.wrote)
            && (!ok ==> r == c)
  {
  }

  lemma {:induction false} MissWrites(c: Cache, x: Lookup, accepted: bool, addr: nat)
    requires LookupOk(x) && !Forgets(c, x)
    ensures var (r, ok) := DoMiss(c, x, accepted);
            && (WriteIn(c.cfg, c.mshr, addr) ==> WriteIn(c.cfg, r.mshr, addr))
            && (WriteIn(c.cfg, c.writes, addr) ==> WriteIn(c.cfg, r.writes, addr))
            && (ok && x.kind.Write? && Same(x.addr, addr, c.cfg.block) ==>
                  WriteIn(c.cfg, r.mshr, addr) || WriteIn(c.cfg, r.writes, addr))
  {
    hide WriteIn;
    var r := DoMiss(c, x, accepted).0;
    var m := FindEntry(c.mshr, x.addr, c.cfg.block);
    if x.kind.Write? && !c.cfg.matchOffset {
      if WriteIn(c.cfg, c.writes, addr) || Same(x.addr, addr, c.cfg.block) {
        WriteInAppend(c.cfg, c.writes, r.writes[|c.writes|], addr);
      }
    } else if m < |c.mshr| {
      if WriteIn(c.cfg, c.mshr, addr) { WriteInUpdate(c.cfg, c.mshr, m, r.mshr[m], addr); }
      if x.kind.Write? { WriteAt(c.cfg, r.mshr, m, addr); }
    } else if |r.mshr| > |c.mshr| {
      if WriteIn(c.cfg, c.mshr, addr) || (x.kind.Write? && Same(x.addr, addr, c.cfg.block)) {
        WriteInAppend(c.cfg, c.mshr, Allocate(x), addr);
      }
    }
  }

  lemma {:induction false} WriteAt(cfg: Config, q: seq<Entry>, m: nat, addr: nat)
    requires m < |q| && q[m].kind.Write?
    ensures Same(q[m].addr, addr, cfg.block) ==> WriteIn(cfg, q, addr)
  {
  }

  lemma {:induction false} MissRemembers(c: Cache, x: Lookup, accepted: bool)
    requires LookupOk(x) && !Forgets(c, x) && AllRemembered(c)
    ensures AllRemembered(DoMiss(c, x, accepted).0)
  {
    hide DoMiss, Forgets, WriteIn, WrittenBack, LookupOk;
    var r := DoMiss(c, x, accepted).0;
    MissFrame(c, x, accepted);
    forall k | 0 <= k < |r.wrote| ensures Remembered(r, r.wrote[k]) {
      var w := r.wrote[k];
      MissWrites(c, x, accepted, w.addr);
      if k < |c.wrote| {
        assert Remembered(c, c.wrote[k]);
        if DirtyIn(c, w.addr) { DirtySame(c, r, w.addr, w.addr); }
      }
    }
  }

  // A register of a write stands for a write that nothing else stands for.
  lemma {:induction false} MissRegisters(c: Cache, x: Lookup, accepted: bool)
    requires LookupOk(x) && WriteRegisters(c)
    ensures WriteRegisters(DoMiss(c, x, accepted).0)
  {
    hide SomeUnsaved;
    var r := DoMiss(c, x, accepted).0;
    MissFrame(c, x, accepted);
    forall i | 0 <= i < |r.mshr| && r.mshr[i].kind.Write? ensures c.cfg.matchOffset && SomeUnsaved(r, r.mshr[i].addr) {
      if x.kind.Write? && r != c && i < |r.mshr| && Same(r.mshr[i].addr, x.addr, c.cfg.block) && c.cfg.matchOffset {
        NewUnsaved(c, r, x, r.mshr[i].addr);
      } else {
        SomeUnsavedKept(c, r, c.mshr[i].addr, r.mshr[i].addr);
      }
    }
  }

  lemma {:induction false} NewUnsaved(c: Cache, r: Cache, x: Lookup, addr: nat)
    requires x.kind.Write? && r.cfg == c.cfg && r.wrote == Wrote(c, x) && r.evicted == c.evicted && Same(addr, x.addr, c.cfg.block)
    ensures SomeUnsaved(r, addr)
  {
    assert Unsaved(r, r.wrote[|c.wrote|], addr);
  }

  // The read takes the write's place in the register, and nothing is left of it.
  lemma {:induction false} ForgottenMiss(c: Cache, x: Lookup, accepted: bool)
    requires Inv(c) && Noted(c) && Forgets(c, x)
    ensures !AllRemembered(DoMiss(c, x, accepted).0)
  {
    hide Inv;
    OpenArray(c);
    var r := DoMiss(c, x, accepted).0;
    var m := FindEntry(c.mshr, x.addr, c.cfg.block);
    var k :| 0 <= k < |c.wrote| && Unsaved(c, c.wrote[k], c.mshr[m].addr);
    var w := c.wrote[k];
    assert r.wrote[k] == w && r.mshr == c.mshr[m := Merge(c.mshr[m], Allocate(x))];
    if DirtyIn(r, w.addr) {
      DirtySame(r, c, w.addr, c.mshr[m].addr);
      DirtyHits(c, c.mshr[m].addr);
      assert false;
    }
    forall i | 0 <= i < |r.mshr| && r.mshr[i].kind.Write? ensures !Same(r.mshr[i].addr, w.addr, c.cfg.block) {
      assert !Same(c.mshr[Min(i, m)].addr, c.mshr[Max(i, m)].addr, c.cfg.block);
    }
    assert !WriteIn(c.cfg, r.mshr, w.addr);
  }

  lemma {:induction false} OpenArray(c: Cache)
    requires Inv(c)
    ensures ArrayOk(c) && DistinctEntries(c.cfg, c.mshr) && (c.cfg.matchOffset ==> c.writes == [])
  {
  }

  lemma {:induction false} DirtyHits(c: Cache, addr: nat)
    requires ArrayOk(c) && DirtyIn(c, addr)
    ensures IsHit(c, addr)
  {
    HitMeans(c, addr);
  }

  // The guard decides whether a miss forgets a write.
  lemma {:induction false} MissForgetsExactly(c: Cache, x: Lookup, accepted: bool)
    requires Inv(c) && Noted(c) && LookupOk(x)
    ensures AllRemembered(DoMiss(c, x, accepted).0) <==> !Forgets(c, x)
    ensures !Forgets(c, x) ==> Noted(DoMiss(c, x, accepted).0)
  {
    if Forgets(c, x) { ForgottenMiss(c, x, accepted); } else { MissRemembers(c, x, accepted); MissRegisters(c, x, accepted); }
  }

  // --------------------------------------------------------------- tag checks

  // Each write is remembered after each miss of the second pass.
  ghost predicate PassRemembers(c: Cache, i: nat, n: nat, accepted: seq<bool>)
    requires i + n <= |c.tags|
    decreases n
  {
    n == 0 ||
    (var now := accepted != [] && accepted[0];
     var rest := if accepted == [] then [] else accepted[1..];
     var (r, ok) := DoMiss(c, c.tags[i], now);
     && AllRemembered(r)
     && if ok then PassRemembers(EraseTag(r, i), i, n - 1, rest) else PassRemembers(r, i + 1, n - 1, rest))
  }

  // No miss of the second pass forgets a write.
  predicate PassKeeps(c: Cache, i: nat, n: nat, accepted: seq<bool>)
    requires i + n <= |c.tags|
    decreases n
  {
    n == 0 ||
    (var now := accepted != [] && accepted[0];
     var rest := if accepted == [] then [] else accepted[1..];
     var (r, ok) := DoMiss(c, c.tags[i], now);
     && !Forgets(c, c.tags[i])
     && if ok then PassKeeps(EraseTag(r, i), i, n - 1, rest) else PassKeeps(r, i + 1, n - 1, rest))
  }

  lemma {:induction false} HitPassNoted(c: Cache, i: nat, n: nat)
    requires Noted(c) && ArrayShape(c) && i + n <= |c.tags|
    ensures Noted(HitPass(c, i, n).0)
    decreases n
  {
    hide Noted, Hit, IsHit;
    if n > 0 {
      if IsHit(c, c.tags[i].addr) {
        HitShape(c, i);
        HitNoted(c, i);
        HitPassNoted(EraseTag(Hit(c, c.tags[i]), i), i, n - 1);
      } else {
        HitPassNoted(c, i + 1, n - 1);
      }
    }
  }

  lemma {:induction false} HitShape(c: Cache, i: nat)
    requires ArrayShape(c) && i < |c.tags| && IsHit(c, c.tags[i].addr)
    ensures |Hit(c, c.tags[i]).tags| == |c.tags|
    ensures ArrayShape(EraseTag(Hit(c, c.tags[i]), i)) && |EraseTag(Hit(c, c.tags[i]), i).tags| == |c.tags| - 1
  {
  }

  lemma {:induction false} TagOk(c: Cache, i: nat)
    requires Inv(c) && i < |c.tags|
    ensures LookupOk(c.tags[i])
  {
  }

  lemma {:induction false} PassExactly(c: State, i: nat, n: nat, accepted: seq<bool>)
    requires Missing(c, i, n) && Noted(c)
    ensures PassRemembers(c, i, n, accepted) <==> PassKeeps(c, i, n, accepted)
    ensures PassKeeps(c, i, n, accepted) ==> Noted(MissPass(c, i, n, accepted))
    decreases n
  {
    hide Inv, Noted, DoMiss, Forgets, AllRemembered, LookupOk;
    if n > 0 {
      var now := accepted != [] && accepted[0];
      var rest := if accepted == [] then [] else accepted[1..];
      var (r, ok) := DoMiss(c, c.tags[i], now);
      TagOk(c, i);
      MissForgetsExactly(c, c.tags[i], now);
      MissFrame(c, c.tags[i], now);
      MissKeepsMissing(c, i, n, now);
      if !Forgets(c, c.tags[i]) {
        var t := MissStep(c, i, now);
        if ok { UntouchedNoted(r, EraseTag(r, i)); }
        PassExactly(t, if ok then i else i + 1, n - 1, rest);
      }
    }
  }

  // -------------------------------------------------------------------- steps

  // Each write is remembered after the action, and after each miss within it.
  ghost predicate StepRemembers(c: State, a: Action) {
    if a.Tags? then
      var (t, misses) := HitPass(c, 0, ReadyTags(c, a.n));
      AllRemembered(t) && PassRemembers(t, 0, misses, a.acceptedBelow)
    else AllRemembered(Step(c, a))
  }

  ghost predicate StepKeeps(c: State, a: Action) {
    a.Tags? ==>
      var (t, misses) := HitPass(c, 0, ReadyTags(c, a.n));
      PassKeeps(t, 0, misses, a.acceptedBelow)
  }

  // Before the first pass.
  lemma {:induction false} PassBegins(c: State, n: nat)
    ensures ArrayShape(c) && Missing(c, 0, 0) && TranslatedTags(c, ReadyTags(c, n))
  {
  }

  lemma {:induction false} TagsExactly(c: State, n: nat, accepted: seq<bool>)
    requires Noted(c)
    ensures StepRemembers(c, Tags(n, accepted)) <==> StepKeeps(c, Tags(n, accepted))
    ensures StepKeeps(c, Tags(n, accepted)) ==> Noted(Step(c, Tags(n, accepted)))
  {
    hide Inv, AllRemembered, WriteRegisters, PassRemembers, PassKeeps, HitPass, MissPass, ReadyTags, Missing, TranslatedTags;
    var k := ReadyTags(c, n);
    PassBegins(c, n);
    var (t, misses) := HitPassStep(c, 0, k);
    HitPassNoted(c, 0, k);
    PassExactly(t, 0, misses, accepted);
  }

  // Any other action keeps what is remembered.
  lemma {:induction false} OtherNoted(c: State, a: Action)
    requires Noted(c) && !a.Tags?
    ensures Noted(Step(c, a))
  {
    hide Noted;
    if Allowed(c, a) {
      if a.Fill? {
        FillNoted(c, a.write, a.victim, a.accepted);
      } else if a.Answer? {
        AnswerNoted(c, a.addr);
      } else {
        UntouchedNoted(c, Step(c, a));
      }
    }
  }

  lemma {:induction false} StepExactly(c: State, a: Action)
    requires Noted(c)
    ensures StepRemembers(c, a) <==> StepKeeps(c, a)
    ensures StepKeeps(c, a) ==> Noted(Step(c, a))
  {
    hide Inv, Step;
    if a.Tags? { TagsExactly(c, a.n, a.acceptedBelow); } else { OtherNoted(c, a); }
  }

  // --------------------------------------------------------------------- runs

  ghost predicate RunRemembers(c: State, actions: seq<Action>) {
    actions == [] ||
    (var before := actions[..|actions| - 1];
     RunRemembers(c, before) && StepRemembers(Run(c, before), actions[|actions| - 1]))
  }

  ghost predicate RunKeeps(c: State, actions: seq<Action>) {
    actions == [] ||
    (var before := actions[..|actions| - 1];
     RunKeeps(c, before) && StepKeeps(Run(c, before), actions[|actions| - 1]))
  }

  lemma {:induction false} RunExactly(c: State, actions: seq<Action>)
    requires Noted(c)
    ensures RunRemembers(c, actions) <==> RunKeeps(c, actions)
    ensures RunKeeps(c, actions) ==> Noted(Run(c, actions))
  {
    hide Inv, Noted, Step, StepRemembers, StepKeeps;
    if actions != [] {
      var n := |actions| - 1;
      RunExactly(c, actions[..n]);
      if RunKeeps(c, actions[..n]) { StepExactly(Run(c, actions[..n]), actions[n]); }
    }
  }

  // A cache that fills its writebacks has no registers for writes to lose.
  lemma {:induction false} PassKeepsWritebacks(c: State, i: nat, n: nat, accepted: seq<bool>)
    requires Missing(c, i, n) && Noted(c) && !c.cfg.matchOffset
    ensures PassKeeps(c, i, n, accepted)
    decreases n
  {
    hide Inv, DoMiss, LookupOk, AllRemembered, SomeUnsaved;
    if n > 0 {
      var now := accepted != [] && accepted[0];
      var rest := if accepted == [] then [] else accepted[1..];
      var (r, ok) := DoMiss(c, c.tags[i], now);
      assert !Forgets(c, c.tags[i]);
      TagOk(c, i);
      MissForgetsExactly(c, c.tags[i], now);
      MissFrame(c, c.tags[i], now);
      MissKeepsMissing(c, i, n, now);
      if ok { UntouchedNoted(r, EraseTag(r, i)); }
      PassKeepsWritebacks(MissStep(c, i, now), if ok then i else i + 1, n - 1, rest);
    }
  }

  lemma {:induction false} StepKeepsWritebacks(c: State, a: Action)
    requires Noted(c) && !c.cfg.matchOffset
    ensures StepKeeps(c, a)
  {
    hide Inv, PassKeeps, Noted, HitPass, ReadyTags, Missing, TranslatedTags;
    if a.Tags? {
      var k := ReadyTags(c, a.n);
      PassBegins(c, a.n);
      var (t, misses) := HitPassStep(c, 0, k);
      HitPassNoted(c, 0, k);
      HitPassConfig(c, 0, k);
      PassKeepsWritebacks(t, 0, misses, a.acceptedBelow);
    }
  }

  lemma {:induction false} RunKeepsWritebacks(c: State, actions: seq<Action>)
    requires Noted(c) && !c.cfg.matchOffset
    ensures RunKeeps(c, actions) && Run(c, actions).cfg == c.cfg
  {
    hide Inv, Noted, Step, StepKeeps;
    if actions != [] {
      var n := |actions| - 1;
      RunKeepsWritebacks(c, actions[..n]);
      RunExactly(c, actions[..n]);
      StepKeepsWritebacks(Run(c, actions[..n]), actions[n]);
      StepConfig(Run(c, actions[..n]), actions[n]);
    }
  }

  // ------------------------------------------------------------- main theorems

  lemma {:induction false} StartNoted(cfg: Config, uppers: nat)
    ensures Inv(Start(cfg, uppers)) && Noted(Start(cfg, uppers)) && Start(cfg, uppers).cfg == cfg
  {
    StartInv(cfg, uppers);
  }

  // Each block that a write has hit or that a write was handled for is dirty, is
  // about to be filled dirty, or has been written back since, all along a run,
  // exactly when no read is merged into the register of a write.
  lemma {:induction false} WritesRememberedExactly(cfg: Config, uppers: nat, actions: seq<Action>)
    ensures RunRemembers(Reached(cfg, uppers, []), actions) <==> RunKeeps(Reached(cfg, uppers, []), actions)
  {
    hide Inv, Noted, Start, RunRemembers, RunKeeps;
    StartNoted(cfg, uppers);
    RunExactly(Reached(cfg, uppers, []), actions);
  }

  lemma {:induction false} NoWriteForgotten(cfg: Config, uppers: nat, actions: seq<Action>, k: nat)
    requires !cfg.matchOffset || RunKeeps(Reached(cfg, uppers, []), actions)
    requires k < |Reached(cfg, uppers, actions).wrote|
    ensures var c := Reached(cfg, uppers, actions); Remembered(c, c.wrote[k])
  {
    hide Inv, Start, RunKeeps, Remembered;
    StartNoted(cfg, uppers);
    var c := Reached(cfg, uppers, []);
    if !cfg.matchOffset { RunKeepsWritebacks(c, actions); }
    RunExactly(c, actions);
  }

  // ------------------------------------------------ writebacks against writes

  function Back(cfg: Config, b: nat): nat -> nat {
    (addr: nat) => One(BlockOf(cfg, addr) == b)
  }

  function Taken(cfg: Config, b: nat): Dirtied -> nat {
    (w: Dirtied) => One(BlockOf(cfg, w.addr) == b)
  }

  function Marked(cfg: Config, b: nat): Entry -> nat {
    (e: Entry) => One(e.kind.Write? && BlockOf(cfg, e.addr) == b)
  }

  function DirtyWay(cfg: Config, b: nat): Way -> nat {
    (w: Way) => One(w.valid && w.dirty && BlockOf(cfg, w.addr) == b)
  }

  function DirtyWays(cfg: Config, b: nat): seq<Way> -> nat {
    (ws: seq<Way>) => Total(ws, DirtyWay(cfg, b))
  }

  // Writebacks of block b, and what will become one: dirty ways and write entries.
  function Backs(c: Cache, b: nat): nat {
    Total(c.evicted, Back(c.cfg, b)) + Total(c.sets, DirtyWays(c.cfg, b))
    + Total(c.mshr, Marked(c.cfg, b)) + Total(c.writes, Marked(c.cfg, b))
  }

  predicate BacksCovered(c: Cache, b: nat) {
    Backs(c, b) <= Total(c.wrote, Taken(c.cfg, b))
  }

  // One way of one set changes.
  lemma {:induction false} OneWay(cfg: Config, sets: seq<seq<Way>>, s: nat, w: nat, way: Way, b: nat)
    requires s < |sets| && w < |sets[s]|
    ensures Total(sets[s := sets[s][w := way]], DirtyWays(cfg, b)) + DirtyWay(cfg, b)(sets[s][w])
         == Total(sets, DirtyWays(cfg, b)) + DirtyWay(cfg, b)(way)
  {
    TotalUpdate(sets, s, sets[s][w := way], DirtyWays(cfg, b));
    TotalUpdate(sets[s], w, way, DirtyWay(cfg, b));
  }

  lemma {:induction false} HandleFillBacks(c: Cache, e: Entry, victim: nat, accepted: bool, b: nat)
    requires ArrayShape(c) && victim <= c.cfg.numWay
    ensures var (r, ok) := HandleFill(c, e, victim, accepted);
            ok ==> (Total(r.evicted, Back(c.cfg, b)) + Total(r.sets, DirtyWays(c.cfg, b))
                    <= Total(c.evicted, Back(c.cfg, b)) + Total(c.sets, DirtyWays(c.cfg, b)) + Marked(c.cfg, b)(e))
  {
    hide Total, Answers;
    var s, w := SetIndex(c.cfg, e.addr), FillWay(c, e, victim);
    var ws := c.sets[s];
    if w < |ws| {
      OneWay(c.cfg, c.sets, s, w, Way(true, e.kind.Write?, e.fromThis, e.addr), b);
      if NeedsWriteback(ws, w) {
        TotalAppend(c.evicted, [ws[w].addr], Back(c.cfg, b));
        TotalOne(ws[w].addr, Back(c.cfg, b));
      }
    } else {
      assert c.sets[s := ws] == c.sets;
    }
  }

  lemma {:induction false} FillBacks(c: Cache, write: bool, victim: nat, accepted: bool, b: nat)
    requires ArrayShape(c) && victim <= c.cfg.numWay && BacksCovered(c, b)
    ensures BacksCovered(FillFront(c, write, victim, accepted), b)
  {
    hide Total, HandleFill, Marked, Back, DirtyWays, Taken;
    var q := if write then c.writes else c.mshr;
    if q != [] {
      HandleFillBacks(c, q[0], victim, accepted, b);
      FillEvicts(c, q[0], victim, accepted);
      TotalSplit(q, 1, Marked(c.cfg, b));
      assert q[..1] == [q[0]];
      TotalOne(q[0], Marked(c.cfg, b));
    }
  }

  lemma {:induction false} AnswerBacks(c: Cache, addr: nat, b: nat)
    requires BacksCovered(c, b)
    ensures BacksCovered(FinishPacket(c, addr), b)
  {
    hide Total;
    var m, f := FindEntry(c.mshr, addr, c.cfg.block), FirstUnreturned(c.mshr);
    if m < |c.mshr| && f < |c.mshr| {
      var returned := c.mshr[m].(promise := Some(c.now + Latency(c, c.cfg.fillLatency)));
      TotalUpdate(c.mshr, m, c.mshr[f], Marked(c.cfg, b));
      TotalUpdate(c.mshr[m := c.mshr[f]], f, returned, Marked(c.cfg, b));
    }
  }

  lemma {:induction false} WroteBacks(c: Cache, x: Lookup, b: nat)
    ensures Total(Wrote(c, x), Taken(c.cfg, b)) == Total(c.wrote, Taken(c.cfg, b)) + One(x.kind.Write? && BlockOf(c.cfg, x.addr) == b)
  {
    hide Total;
    if x.kind.Write? {
      TotalAppend(c.wrote, [Dirtied(x.addr, |c.evicted|)], Taken(c.cfg, b));
      TotalOne(Dirtied(x.addr, |c.evicted|), Taken(c.cfg, b));
    }
  }

  lemma {:induction false} HitBacks(c: Cache, x: Lookup, b: nat)
    requires ArrayShape(c) && IsHit(c, x.addr) && BacksCovered(c, b)
    ensures BacksCovered(Hit(c, x), b)
  {
    hide Total, Answers, Wrote;
    var s := SetIndex(c.cfg, x.addr);
    var w := FindWay(c.sets[s], x.addr, c.cfg.block);
    WroteBacks(c, x, b);
    OneWay(c.cfg, c.sets, s, w, Hit(c, x).sets[s][w], b);
  }

  lemma {:induction false} MissBacks(c: Cache, x: Lookup, accepted: bool, b: nat)
    requires LookupOk(x) && BacksCovered(c, b)
    ensures BacksCovered(DoMiss(c, x, accepted).0, b)
  {
    hide Total, Union, Wrote;
    var r := DoMiss(c, x, accepted).0;
    var m := FindEntry(c.mshr, x.addr, c.cfg.block);
    WroteBacks(c, x, b);
    MissFrame(c, x, accepted);
    if x.kind.Write? && !c.cfg.matchOffset {
      TotalAppend(c.writes, [r.writes[|c.writes|]], Marked(c.cfg, b));
      TotalOne(r.writes[|c.writes|], Marked(c.cfg, b));
    } else if m < |c.mshr| {
      TotalUpdate(c.mshr, m, r.mshr[m], Marked(c.cfg, b));
    } else if |r.mshr| > |c.mshr| {
      TotalAppend(c.mshr, [Allocate(x)], Marked(c.cfg, b));
      TotalOne(Allocate(x), Marked(c.cfg, b));
    }
  }

  lemma {:induction false} SameBacks(c: Cache, r: Cache, b: nat)
    requires BacksCovered(c, b) && r.cfg == c.cfg && r.sets == c.sets && r.mshr == c.mshr && r.writes == c.writes
    requires r.wrote == c.wrote && r.evicted == c.evicted
    ensures BacksCovered(r, b)
  {
  }

  lemma {:induction false} HitPassBacks(c: Cache, i: nat, n: nat, b: nat)
    requires BacksCovered(c, b) && ArrayShape(c) && i + n <= |c.tags|
    ensures BacksCovered(HitPass(c, i, n).0, b)
    decreases n
  {
    hide BacksCovered, Hit, IsHit;
    if n > 0 {
      if IsHit(c, c.tags[i].addr) {
        HitShape(c, i);
        HitBacks(c, c.tags[i], b);
        SameBacks(Hit(c, c.tags[i]), EraseTag(Hit(c, c.tags[i]), i), b);
        HitPassBacks(EraseTag(Hit(c, c.tags[i]), i), i, n - 1, b);
      } else {
        HitPassBacks(c, i + 1, n - 1, b);
      }
    }
  }

  lemma {:induction false} MissPassBacks(c: State, i: nat, n: nat, accepted: seq<bool>, b: nat)
    requires Missing(c, i, n) && BacksCovered(c, b)
    ensures BacksCovered(MissPass(c, i, n, accepted), b)
    decreases n
  {
    hide Inv, BacksCovered, DoMiss, LookupOk;
    if n > 0 {
      var now := accepted != [] && accepted[0];
      var rest := if accepted == [] then [] else accepted[1..];
      var (r, ok) := DoMiss(c, c.tags[i], now);
      TagOk(c, i);
      MissBacks(c, c.tags[i], now, b);
      MissFrame(c, c.tags[i], now);
      MissKeepsMissing(c, i, n, now);
      if ok { SameBacks(r, EraseTag(r, i), b); }
      MissPassBacks(MissStep(c, i, now), if ok then i else i + 1, n - 1, rest, b);
    }
  }

  lemma {:induction false} TagsBacks(c: State, n: nat, accepted: seq<bool>, b: nat)
    requires BacksCovered(c, b)
    ensures BacksCovered(TagCheck(c, n, accepted), b)
  {
    hide Inv, BacksCovered, HitPass, MissPass, ReadyTags, Missing, TranslatedTags;
    var k := ReadyTags(c, n);
    PassBegins(c, n);
    var (t, misses) := HitPassStep(c, 0, k);
    HitPassBacks(c, 0, k, b);
    MissPassBacks(t, 0, misses, accepted, b);
  }

  lemma {:induction false} StepBacks(c: State, a: Action, b: nat)
    requires BacksCovered(c, b)
    ensures BacksCovered(Step(c, a), b)
  {
    hide BacksCovered;
    if Allowed(c, a) {
      if a.Tags? {
        TagsBacks(c, a.n, a.acceptedBelow, b);
      } else if a.Fill? {
        FillBacks(c, a.write, a.victim, a.accepted, b);
      } else if a.Answer? {
        AnswerBacks(c, a.addr, b);
      } else {
        SameBacks(c, Step(c, a), b);
      }
    }
  }

  lemma {:induction false} StartBacks(cfg: Config, uppers: nat, b: nat)
    ensures BacksCovered(Start(cfg, uppers), b)
  {
    CleanSets(cfg, Start(cfg, uppers).sets, b);
  }

  lemma {:induction false} CleanSets(cfg: Config, sets: seq<seq<Way>>, b: nat)
    requires forall s :: 0 <= s < |sets| ==> forall w :: 0 <= w < |sets[s]| ==> !sets[s][w].dirty
    ensures Total(sets, DirtyWays(cfg, b)) == 0
  {
    if sets != [] {
      CleanSets(cfg, sets[..|sets| - 1], b);
      CleanWays(cfg, sets[|sets| - 1], b);
    }
  }

  lemma {:induction false} CleanWays(cfg: Config, ws: seq<Way>, b: nat)
    requires forall w :: 0 <= w < |ws| ==> !ws[w].dirty
    ensures Total(ws, DirtyWay(cfg, b)) == 0
  {
    if ws != [] { CleanWays(cfg, ws[..|ws| - 1], b); }
  }

  // The writebacks of a block, with those that its dirty ways and write entries
  // will cause, are never more than the writes of it that were taken.
  lemma {:induction false} WritebacksCovered(cfg: Config, uppers: nat, actions: seq<Action>, b: nat)
    ensures BacksCovered(Reached(cfg, uppers, actions), b)
  {
    hide Inv, Start, Step, BacksCovered;
    StartInv(cfg, uppers);
    if actions == [] {
      StartBacks(cfg, uppers, b);
    } else {
      var n := |actions| - 1;
      WritebacksCovered(cfg, uppers, actions[..n], b);
      StepBacks(Reached(cfg, uppers, actions[..n]), actions[n], b);
    }
  }

  // --------------------------------------------------- a run that forgets a write

  function ReadLikeConfig(): Config {
    Config(64, 64, 1, 2, 1, 0, 1, 1, 0, 0, 0, true)
  }

  // A write of block 0 misses and waits; then a read of the block misses.
  function ForgettingRun(): seq<Action> {
    [Arrival(0, WriteQueue, Writer()), Begin(0, WriteQueue, 1), Tags(1, [true])]
    + [Arrival(0, ReadQueue, Reader()), Begin(0, ReadQueue, 1), Tags(1, [])]
  }

  // The cache before the write is taken, and from then on.
  function Unwritten(uppers: Queues, tags: seq<Lookup>): Cache {
    Cache(ReadLikeConfig(), 0, true, [uppers], [], tags, [], [], [], [EmptyWays(2)], multiset{}, {}, [], [], [], [])
  }

  function Outstanding(uppers: Queues, tags: seq<Lookup>, e: Entry, ledger: seq<Item>): Cache {
    Cache(ReadLikeConfig(), 0, true, [uppers], [], tags, [], [e], [], [EmptyWays(2)], multiset{0}, {}, [], ledger, [Dirtied(0, 0)], [])
  }

  function Ledger(): seq<Item> {
    [Item(0, 0, true, [], 0)]
  }

  lemma {:induction false} WriteComes(c: Cache)
    requires c == Start(ReadLikeConfig(), 1)
    ensures Arrive(c, 0, WriteQueue, Writer()).0 == Unwritten(Queues([Writer()], [], []), [])
  {
    assert c.uppers == [Empty()];
    assert c.sets == [EmptyWays(2)];
    assert AddQueue([], 1, Writer()).0 == [Writer()];
  }

  lemma {:induction false} WriteStarts(c: Cache)
    requires c == Unwritten(Queues([Writer()], [], []), [])
    ensures BeginUpper(c, 0, WriteQueue, 1) == Unwritten(Empty(), [WriteLookup()])
  {
    var q := [Writer()];
    assert q[1..] == [] && q[..1] == q && q[..0] == [];
    assert StartCount(c, q, 1) == 1;
    assert FromRequests(q, 0, 0) == [WriteLookup()];
  }

  lemma {:induction false} WriteTakesRegister(c: Cache)
    requires c == Unwritten(Empty(), [WriteLookup()])
    ensures TagCheck(c, 1, [true]) == Outstanding(Empty(), [], Allocate(WriteLookup()), [])
  {
    assert ReadyTags(c, 1) == 1;
    assert !IsHit(c, 0);
    assert HitPass(c, 0, 1) == (c, 1);
    assert [true][0];
    assert MissPass(c, 0, 1, [true]) == EraseTag(HandleMiss(c, WriteLookup(), true).0, 0);
  }

  lemma {:induction false} ReadComes(c: Cache)
    requires c == Outstanding(Empty(), [], Allocate(WriteLookup()), [])
    ensures Arrive(c, 0, ReadQueue, Reader()).0 == Outstanding(Queues([], [Reader()], []), [], Allocate(WriteLookup()), Ledger())
  {
    assert AddQueue([], 1, Reader()).0 == [Reader()];
  }

  lemma {:induction false} ReadStarts(c: Cache)
    requires c == Outstanding(Queues([], [Reader()], []), [], Allocate(WriteLookup()), Ledger())
    ensures BeginUpper(c, 0, ReadQueue, 1) == Outstanding(Empty(), [ReadLookup()], Allocate(WriteLookup()), Ledger())
  {
    var q := [Reader()];
    assert q[1..] == [] && q[..1] == q && q[..0] == [];
    assert StartCount(c, q, 1) == 1;
    assert FromRequests(q, 0, 0) == [ReadLookup()];
  }

  // The read is merged: its register is that of a read now.
  lemma {:induction false} ReadMerges(c: Cache)
    requires c == Outstanding(Empty(), [ReadLookup()], Allocate(WriteLookup()), Ledger())
    ensures TagCheck(c, 1, []) == Outstanding(Empty(), [], Allocate(ReadLookup()), Ledger())
  {
    assert ReadyTags(c, 1) == 1;
    assert !IsHit(c, 0);
    assert HitPass(c, 0, 1) == (c, 1);
    assert FindEntry(c.mshr, 0, 64) == 0;
    assert Union([], [0]) == [0];
    assert MissPass(c, 0, 1, []) == EraseTag(HandleMiss(c, ReadLookup(), false).0, 0);
  }

  lemma {:induction false} WriteOutstanding(c: State) returns (r: State)
    requires c == Start(ReadLikeConfig(), 1)
    ensures r == Run(c, [Arrival(0, WriteQueue, Writer()), Begin(0, WriteQueue, 1), Tags(1, [true])])
    ensures r == Outstanding(Empty(), [], Allocate(WriteLookup()), [])
  {
    hide Inv, Run, Step, Arrive, BeginUpper, TagCheck, EmptyWays, Allocate;
    var x, y, z := Arrival(0, WriteQueue, Writer()), Begin(0, WriteQueue, 1), Tags(1, [true]);
    WriteComes(c);
    assert |c.uppers| == 1;
    StepIs(c, x);
    var t := Step(c, x);
    WriteStarts(t);
    StepIs(t, y);
    var u := Step(t, y);
    WriteTakesRegister(u);
    StepIs(u, z);
    RunThreeSteps(c, x, y, z);
    r := Step(u, z);
  }

  lemma {:induction false} ReadMerged(c: State) returns (r: State)
    requires c == Outstanding(Empty(), [], Allocate(WriteLookup()), [])
    ensures r == Run(c, [Arrival(0, ReadQueue, Reader()), Begin(0, ReadQueue, 1), Tags(1, [])])
    ensures r == Outstanding(Empty(), [], Allocate(ReadLookup()), Ledger())
  {
    hide Inv, Run, Step, Arrive, BeginUpper, TagCheck, EmptyWays, Allocate, Ledger;
    var x, y, z := Arrival(0, ReadQueue, Reader()), Begin(0, ReadQueue, 1), Tags(1, []);
    ReadComes(c);
    StepIs(c, x);
    var t := Step(c, x);
    ReadStarts(t);
    StepIs(t, y);
    var u := Step(t, y);
    ReadMerges(u);
    StepIs(u, z);
    RunThreeSteps(c, x, y, z);
    r := Step(u, z);
  }

  lemma {:induction false} Forgotten(c: Cache)
    requires c == Outstanding(Empty(), [], Allocate(ReadLookup()), Ledger())
    ensures c.wrote == [Dirtied(0, 0)] && !Remembered(c, c.wrote[0])
  {
    assert forall s, w :: !Holds(c, s, w);
    assert !DirtyIn(c, 0);
  }

  // A store that misses, and a load of its block before the data is there: the
  // block will be filled clean, and the store is forgotten.
  lemma {:induction false} ReadForgetsWrite()
    ensures var c := Reached(ReadLikeConfig(), 1, ForgettingRun());
            c.wrote == [Dirtied(0, 0)] && !Remembered(c, c.wrote[0]) && !RunKeeps(Reached(ReadLikeConfig(), 1, []), ForgettingRun())
  {
    hide Inv, Run, Start, Outstanding, Remembered, RunKeeps;
    StartInv(ReadLikeConfig(), 1);
    var c: State := Start(ReadLikeConfig(), 1);
    RunNothing(c);
    var t := WriteOutstanding(c);
    var r := ReadMerged(t);
    RunAppend(c, [Arrival(0, WriteQueue, Writer()), Begin(0, WriteQueue, 1), Tags(1, [true])],
              [Arrival(0, ReadQueue, Reader()), Begin(0, ReadQueue, 1), Tags(1, [])]);
    Forgotten(r);
    if RunKeeps(c, ForgettingRun()) { NoWriteForgotten(ReadLikeConfig(), 1, ForgettingRun(), 0); }
  }

  lemma {:induction false} RunNothing(c: State)
    ensures Run(c, []) == c
  {
  }
}
