// What a cache keeps true: no accepted request is lost on its way through tag
// check, stash, miss registers and writes; miss registers name distinct blocks,
// the returned ones first and in order of readiness; and a cache that takes no
// writebacks never holds a block twice.
module CacheInvariant {
  import opened Prelude
  import opened SetUnion
  import opened Channels
  import opened Algorithms
  import opened CacheModel

  // ------------------------------------------------------ blocks and pages

  lemma {:induction false} DivDiv(a: nat, b: nat, k: nat)
    requires b > 0 && k > 0
    ensures b * k > 0 && (a / b) / k == a / (b * k) && a % (b * k) == ((a / b) % k) * b + a % b
  {
    var q := a / b;
    DivMod(a, b);
    DivMod(q, k);
    MulMono(0, k, b);
    MulMono(q % k, k, b);
    assert b * k == k * b;
    assert a == (q / k) * (b * k) + ((q % k) * b + a % b) by {
      assert q * b == (q / k * k + q % k) * b == (q / k) * k * b + (q % k) * b;
      assert (q / k) * k * b == (q / k) * (k * b);
    }
    DivUnique(a, b * k, q / k, (q % k) * b + a % b);
  }

  // A block lies in one page, and keeps its place in it when the page moves.
  lemma {:induction false} SpliceBlock(cfg: Config, pp: nat, a: nat, b: nat)
    requires Same(a, b, cfg.block)
    ensures PageBytes(cfg) > 0 && a / PageBytes(cfg) == b / PageBytes(cfg)
    ensures Same(Splice(cfg, pp, a), Splice(cfg, pp, b), cfg.block)
  {
    SpliceAt(cfg, pp, a);
    SpliceAt(cfg, pp, b);
    DivDiv(a, cfg.block, cfg.blocksPerPage);
    DivDiv(b, cfg.block, cfg.blocksPerPage);
  }

  lemma {:induction false} SpliceAt(cfg: Config, pp: nat, a: nat)
    ensures PageBytes(cfg) > 0
    ensures Splice(cfg, pp, a) / cfg.block == pp * cfg.blocksPerPage + (a / cfg.block) % cfg.blocksPerPage
  {
    var b, k := cfg.block, cfg.blocksPerPage;
    DivDiv(a, b, k);
    DivMod(a, b);
    Regroup(pp, k, b, (a / b) % k);
    DivUnique(Splice(cfg, pp, a), b, pp * k + (a / b) % k, a % b);
  }

  lemma {:induction false} Regroup(p: nat, k: nat, b: nat, r: nat)
    ensures (p * k + r) * b == p * (b * k) + r * b
  {
    assert (p * k) * b == p * (k * b);
    assert k * b == b * k;
  }

  // -------------------------------------------------------- where an item is

  // An address that a received translation gives the item.
  predicate Translated(cfg: Config, pages: set<Page>, addr: nat, item: Item) {
    !item.translated && PageBytes(cfg) > 0 &&
    exists p :: p in pages && p.vpage == item.addr / PageBytes(cfg) && Same(addr, Splice(cfg, p.ppage, item.addr), cfg.block)
  }

  // The block of an entry is the item's own, before or after translation.
  predicate Matches(cfg: Config, pages: set<Page>, addr: nat, translated: bool, item: Item) {
    if translated == item.translated then Same(addr, item.addr, cfg.block)
    else translated && Translated(cfg, pages, addr, item)
  }

  predicate RequestCarries(cfg: Config, pages: set<Page>, x: Request, item: Item) {
    x.respond && Includes(x.deps, item.deps) && Matches(cfg, pages, x.addr, x.translated, item)
  }

  predicate LookupCarries(cfg: Config, pages: set<Page>, x: Lookup, item: Item) {
    item.ret in x.rets && Includes(x.deps, item.deps) && Matches(cfg, pages, x.addr, x.translated, item)
  }

  predicate EntryCarries(cfg: Config, pages: set<Page>, e: Entry, item: Item) {
    item.ret in e.rets && Includes(e.deps, item.deps) && Matches(cfg, pages, e.addr, true, item)
  }

  predicate ResponseCarries(cfg: Config, pages: set<Page>, r: Response, item: Item) {
    r.to == item.ret && Includes(r.deps, item.deps) && Matches(cfg, pages, r.addr, r.translated, item)
  }

  predicate InRequests(cfg: Config, pages: set<Page>, q: seq<Request>, item: Item) {
    exists i :: 0 <= i < |q| && RequestCarries(cfg, pages, q[i], item)
  }

  predicate InLookups(cfg: Config, pages: set<Page>, q: seq<Lookup>, item: Item) {
    exists i :: 0 <= i < |q| && LookupCarries(cfg, pages, q[i], item)
  }

  predicate InEntries(cfg: Config, pages: set<Page>, q: seq<Entry>, item: Item) {
    exists i :: 0 <= i < |q| && EntryCarries(cfg, pages, q[i], item)
  }

  // Only a response pushed after the request was accepted answers it.
  predicate Answered(cfg: Config, pages: set<Page>, out: seq<Response>, item: Item) {
    exists i :: item.since <= i < |out| && ResponseCarries(cfg, pages, out[i], item)
  }

  predicate Queued(cfg: Config, pages: set<Page>, uppers: seq<Queues>, item: Item) {
    item.ret < |uppers| &&
    var qs := uppers[item.ret];
    InRequests(cfg, pages, qs.wq, item) || InRequests(cfg, pages, qs.rq, item) || InRequests(cfg, pages, qs.pq, item)
  }

  // The request is queued above, being checked, stashed, waiting for its data, or
  // has been answered, since it was accepted, by a response with all its dependents.
  predicate Carried(c: Cache, item: Item) {
    && item.since <= |c.out|
    && (|| Queued(c.cfg, c.pages, c.uppers, item)
        || InLookups(c.cfg, c.pages, c.pq, item)
        || InLookups(c.cfg, c.pages, c.tags, item)
        || InLookups(c.cfg, c.pages, c.stash, item)
        || InEntries(c.cfg, c.pages, c.mshr, item)
        || InEntries(c.cfg, c.pages, c.writes, item)
        || Answered(c.cfg, c.pages, c.out, item))
  }

  predicate AllCarried(c: Cache) {
    forall k :: 0 <= k < |c.ledger| ==> Carried(c, c.ledger[k])
  }

  lemma {:induction false} MatchesSame(cfg: Config, pages: set<Page>, a: nat, b: nat, translated: bool, item: Item)
    requires Same(a, b, cfg.block) && Matches(cfg, pages, a, translated, item)
    ensures Matches(cfg, pages, b, translated, item)
  {
    if translated != item.translated {
      var p :| p in pages && p.vpage == item.addr / PageBytes(cfg) && Same(a, Splice(cfg, p.ppage, item.addr), cfg.block);
      assert Same(b, Splice(cfg, p.ppage, item.addr), cfg.block);
    }
  }

  // ------------------------------------------------------------ small moves

  lemma {:induction false} LookupsAppend(cfg: Config, pages: set<Page>, q: seq<Lookup>, more: seq<Lookup>, item: Item)
    ensures InLookups(cfg, pages, q + more, item) <==> InLookups(cfg, pages, q, item) || InLookups(cfg, pages, more, item)
  {
    var z := q + more;
    if i :| 0 <= i < |q| && LookupCarries(cfg, pages, q[i], item) { assert z[i] == q[i]; }
    if i :| 0 <= i < |more| && LookupCarries(cfg, pages, more[i], item) { assert z[|q| + i] == more[i]; }
    if i :| 0 <= i < |z| && LookupCarries(cfg, pages, z[i], item) {
      if i < |q| { assert z[i] == q[i]; } else { assert z[i] == more[i - |q|]; }
    }
  }

  lemma {:induction false} AnswersMore(cfg: Config, pages: set<Page>, out: seq<Response>, more: seq<Response>, item: Item)
    requires Answered(cfg, pages, out, item)
    ensures Answered(cfg, pages, out + more, item)
  {
    var i :| item.since <= i < |out| && ResponseCarries(cfg, pages, out[i], item);
    assert (out + more)[i] == out[i];
  }

  lemma {:induction false} AnswersAll(cfg: Config, pages: set<Page>, out: seq<Response>, rets: seq<nat>, addr: nat, translated: bool,
                                      deps: seq<nat>, item: Item)
    requires item.ret in rets && Includes(deps, item.deps) && Matches(cfg, pages, addr, translated, item) && item.since <= |out|
    ensures Answered(cfg, pages, out + Answers(rets, addr, translated, deps, |rets|), item)
  {
    var i :| 0 <= i < |rets| && rets[i] == item.ret;
    var more := Answers(rets, addr, translated, deps, |rets|);
    assert (out + more)[|out| + i] == more[i];
    assert ResponseCarries(cfg, pages, more[i], item);
  }

  lemma {:induction false} LookupsSplit(cfg: Config, pages: set<Page>, q: seq<Lookup>, k: nat, item: Item)
    requires k <= |q|
    ensures InLookups(cfg, pages, q, item) <==> InLookups(cfg, pages, q[..k], item) || InLookups(cfg, pages, q[k..], item)
  {
    assert q == q[..k] + q[k..];
    LookupsAppend(cfg, pages, q[..k], q[k..], item);
  }

  lemma {:induction false} LookupsErase(cfg: Config, pages: set<Page>, q: seq<Lookup>, i: nat, item: Item)
    requires i < |q| && InLookups(cfg, pages, q, item)
    ensures InLookups(cfg, pages, q[..i] + q[i + 1..], item) || LookupCarries(cfg, pages, q[i], item)
  {
    var j :| 0 <= j < |q| && LookupCarries(cfg, pages, q[j], item);
    var z := q[..i] + q[i + 1..];
    if j < i { assert z[j] == q[j]; } else if i < j { assert z[j - 1] == q[j]; }
  }

  lemma {:induction false} LookupsFilter(cfg: Config, pages: set<Page>, q: seq<Lookup>, p: Lookup -> bool, item: Item)
    requires InLookups(cfg, pages, q, item)
    ensures InLookups(cfg, pages, Filter(q, p), item) || InLookups(cfg, pages, Filter(q, Not(p)), item)
  {
    var j :| 0 <= j < |q| && LookupCarries(cfg, pages, q[j], item);
    FilterMember(q, p, q[j]);
    FilterMember(q, Not(p), q[j]);
  }

  // Replacing entries by ones that carry as much.
  lemma {:induction false} LookupsReplace(cfg: Config, pages: set<Page>, x: seq<Lookup>, y: seq<Lookup>, item: Item)
    requires |x| == |y| && InLookups(cfg, pages, x, item)
    requires forall i :: 0 <= i < |x| ==>
               y[i].addr == x[i].addr && y[i].translated == x[i].translated && y[i].deps == x[i].deps && y[i].rets == x[i].rets
    ensures InLookups(cfg, pages, y, item)
  {
    var i :| 0 <= i < |x| && LookupCarries(cfg, pages, x[i], item);
    assert LookupCarries(cfg, pages, y[i], item);
  }

  // ------------------------------------------------- collision checks keep it

  lemma {:induction false} MergedCarries(cfg: Config, pages: set<Page>, d: Request, x: Request, item: Item)
    requires Same(d.addr, x.addr, cfg.block) && d.translated == x.translated
    requires RequestCarries(cfg, pages, d, item) || RequestCarries(cfg, pages, x, item)
    ensures RequestCarries(cfg, pages, Merged(d, x), item)
  {
    UnionIncludes(d.deps, x.deps);
    if RequestCarries(cfg, pages, x, item) { MatchesSame(cfg, pages, x.addr, d.addr, x.translated, item); }
  }

  lemma {:induction false} MergeIntoKeeps(cfg: Config, pages: set<Page>, q: seq<Request>, f: nat, k: nat, item: Item)
    requires f < k < |q| && Same(q[f].addr, q[k].addr, cfg.block) && q[f].translated == q[k].translated
    requires InRequests(cfg, pages, q, item)
    ensures InRequests(cfg, pages, MergeInto(q, f, k), item)
  {
    var i :| 0 <= i < |q| && RequestCarries(cfg, pages, q[i], item);
    var r := MergeInto(q, f, k);
    if i == f || i == k {
      MergedCarries(cfg, pages, q[f], q[k], item);
      assert r[f] == Merged(q[f], q[k]);
    } else if i < k {
      assert r[i] == q[i];
    } else {
      assert r[i - 1] == q[i];
    }
  }

  lemma {:induction false} MarkKeeps(cfg: Config, pages: set<Page>, q: seq<Request>, k: nat, item: Item)
    requires k < |q| && InRequests(cfg, pages, q, item)
    ensures InRequests(cfg, pages, MarkChecked(q, k), item)
  {
    var i :| 0 <= i < |q| && RequestCarries(cfg, pages, q[i], item);
    assert RequestCarries(cfg, pages, MarkChecked(q, k)[i], item);
  }

  // Addresses that are equal, or in one block, are in one block.
  lemma {:induction false} FinerUnit(a: nat, b: nat, unit: Unit, block: Unit)
    requires Same(a, b, unit) && (unit == 1 || unit == block)
    ensures Same(a, b, block)
  {
  }

  lemma {:induction false} MergeFromKeeps(cfg: Config, pages: set<Page>, q: seq<Request>, k: nat, unit: Unit, item: Item)
    requires k <= |q| && (unit == 1 || unit == cfg.block) && InRequests(cfg, pages, q, item)
    ensures InRequests(cfg, pages, MergeFrom(q, k, unit), item)
    decreases |q| - k
  {
    if k < |q| {
      var f := Collision(q, k, q[k], unit);
      if f < k {
        FinerUnit(q[f].addr, q[k].addr, unit, cfg.block);
        MergeIntoKeeps(cfg, pages, q, f, k, item);
        MergeFromKeeps(cfg, pages, MergeInto(q, f, k), k, unit, item);
      } else {
        MarkKeeps(cfg, pages, q, k, item);
        MergeFromKeeps(cfg, pages, MarkChecked(q, k), k + 1, unit, item);
      }
    }
  }

  lemma {:induction false} ForwardKeeps(cfg: Config, pages: set<Page>, r: Read, k: nat, item: Item)
    requires k < |r.q| && InRequests(cfg, pages, r.q, item) && item.since <= |r.out|
    ensures InRequests(cfg, pages, Erase(r.q, k), item) || Answered(cfg, pages, r.out + Forward(r.q[k], item.ret), item)
  {
    var i :| 0 <= i < |r.q| && RequestCarries(cfg, pages, r.q[i], item);
    if i < k {
      assert Erase(r.q, k)[i] == r.q[i];
    } else if k < i {
      assert Erase(r.q, k)[i - 1] == r.q[i];
    } else {
      var x := r.q[k];
      assert (r.out + Forward(x, item.ret))[|r.out|] == Response(item.ret, x.addr, x.translated, x.deps);
      assert ResponseCarries(cfg, pages, Response(item.ret, x.addr, x.translated, x.deps), item);
    }
  }

  // Forwarding and merging reads of the item's own channel.
  lemma {:induction false} ReadFromKeeps(cfg: Config, pages: set<Page>, wq: seq<Request>, r: Read, k: nat, unit: Unit, item: Item)
    requires k <= |r.q| && item.since <= |r.out| && (InRequests(cfg, pages, r.q, item) || Answered(cfg, pages, r.out, item))
    ensures var r' := ReadFrom(wq, r, k, unit, cfg.block, item.ret);
            InRequests(cfg, pages, r'.q, item) || Answered(cfg, pages, r'.out, item)
    decreases |r.q| - k
  {
    hide InRequests, Answered, Collision, Forward, Erase, MergeInto, MarkChecked;
    if k < |r.q| {
      var x := r.q[k];
      var f := Collision(r.q, k, x, cfg.block);
      if Collision(wq, |wq|, x, unit) < |wq| {
        if Answered(cfg, pages, r.out, item) {
          AnswersMore(cfg, pages, r.out, Forward(x, item.ret), item);
        } else {
          ForwardKeeps(cfg, pages, r, k, item);
        }
        ReadFromKeeps(cfg, pages, wq, Read(Erase(r.q, k), r.out + Forward(x, item.ret)), k, unit, item);
      } else if f < k {
        if InRequests(cfg, pages, r.q, item) { MergeIntoKeeps(cfg, pages, r.q, f, k, item); }
        ReadFromKeeps(cfg, pages, wq, Read(MergeInto(r.q, f, k), r.out), k, unit, item);
      } else {
        if InRequests(cfg, pages, r.q, item) { MarkKeeps(cfg, pages, r.q, k, item); }
        ReadFromKeeps(cfg, pages, wq, Read(MarkChecked(r.q, k), r.out), k + 1, unit, item);
      }
    }
  }

  lemma {:induction false} ReadFromOut(wq: seq<Request>, r: Read, k: nat, writeUnit: Unit, readUnit: Unit, to: nat)
    requires k <= |r.q|
    ensures r.out <= ReadFrom(wq, r, k, writeUnit, readUnit, to).out
    decreases |r.q| - k
  {
    hide Collision, MergeInto, MarkChecked, Erase, Forward;
    if k < |r.q| {
      var x := r.q[k];
      var f := Collision(r.q, k, x, readUnit);
      if Collision(wq, |wq|, x, writeUnit) < |wq| {
        ReadFromOut(wq, Read(Erase(r.q, k), r.out + Forward(x, to)), k, writeUnit, readUnit, to);
      } else if f < k {
        ReadFromOut(wq, Read(MergeInto(r.q, f, k), r.out), k, writeUnit, readUnit, to);
      } else {
        ReadFromOut(wq, Read(MarkChecked(r.q, k), r.out), k + 1, writeUnit, readUnit, to);
      }
    }
  }

  lemma {:induction false} AnsweredPrefix(cfg: Config, pages: set<Page>, x: seq<Response>, y: seq<Response>, item: Item)
    requires x <= y && Answered(cfg, pages, x, item)
    ensures Answered(cfg, pages, y, item)
  {
    var i :| item.since <= i < |x| && ResponseCarries(cfg, pages, x[i], item);
    assert y[i] == x[i];
  }

  lemma {:induction false} CheckKeeps(cfg: Config, pages: set<Page>, qs: Queues, out: seq<Response>, item: Item)
    requires InRequests(cfg, pages, qs.wq, item) || InRequests(cfg, pages, qs.rq, item) || InRequests(cfg, pages, qs.pq, item)
             || Answered(cfg, pages, out, item)
    requires item.since <= |out|
    ensures var (r, out') := CheckCollision(qs, cfg.block, cfg.matchOffset, item.ret, out);
            InRequests(cfg, pages, r.wq, item) || InRequests(cfg, pages, r.rq, item) || InRequests(cfg, pages, r.pq, item)
            || Answered(cfg, pages, out', item)
  {
    var unit: Unit := if cfg.matchOffset then 1 else cfg.block;
    var wq := MergeFrom(qs.wq, FirstUnchecked(qs.wq), unit);
    var rq := ReadFrom(wq, Read(qs.rq, out), FirstUnchecked(qs.rq), unit, cfg.block, item.ret);
    var pq := ReadFrom(wq, Read(qs.pq, rq.out), FirstUnchecked(qs.pq), unit, cfg.block, item.ret);
    ReadFromOut(wq, Read(qs.rq, out), FirstUnchecked(qs.rq), unit, cfg.block, item.ret);
    if InRequests(cfg, pages, qs.wq, item) { MergeFromKeeps(cfg, pages, qs.wq, FirstUnchecked(qs.wq), unit, item); }
    if InRequests(cfg, pages, qs.rq, item) || Answered(cfg, pages, out, item) {
      ReadFromKeeps(cfg, pages, wq, Read(qs.rq, out), FirstUnchecked(qs.rq), unit, item);
    }
    if InRequests(cfg, pages, qs.pq, item) || Answered(cfg, pages, rq.out, item) {
      ReadFromKeeps(cfg, pages, wq, Read(qs.pq, rq.out), FirstUnchecked(qs.pq), unit, item);
    }
  }

  lemma {:induction false} CheckOut(qs: Queues, block: Unit, matchOffset: bool, to: nat, out: seq<Response>)
    ensures out <= CheckCollision(qs, block, matchOffset, to, out).1
  {
    var unit: Unit := if matchOffset then 1 else block;
    var wq := MergeFrom(qs.wq, FirstUnchecked(qs.wq), unit);
    ReadFromOut(wq, Read(qs.rq, out), FirstUnchecked(qs.rq), unit, block, to);
    var rq := ReadFrom(wq, Read(qs.rq, out), FirstUnchecked(qs.rq), unit, block, to);
    ReadFromOut(wq, Read(qs.pq, rq.out), FirstUnchecked(qs.pq), unit, block, to);
  }

  lemma {:induction false} CheckUpperCarried(c: Cache, u: nat, item: Item)
    requires u < |c.uppers| && Carried(c, item)
    ensures Carried(CheckUpper(c, u), item)
  {
    CheckOut(c.uppers[u], c.cfg.block, c.cfg.matchOffset, u, c.out);
    if Answered(c.cfg, c.pages, c.out, item) {
      AnsweredPrefix(c.cfg, c.pages, c.out, CheckUpper(c, u).out, item);
    } else if u == item.ret && Queued(c.cfg, c.pages, c.uppers, item) {
      CheckKeeps(c.cfg, c.pages, c.uppers[u], c.out, item);
    }
  }

  // ------------------------------------------------- responses and fills keep it

  lemma {:induction false} FinishPacketCarried(c: Cache, addr: nat, item: Item)
    requires Carried(c, item)
    ensures Carried(FinishPacket(c, addr), item)
  {
    var r := FinishPacket(c, addr);
    if r != c && InEntries(c.cfg, c.pages, c.mshr, item) {
      var i :| 0 <= i < |c.mshr| && EntryCarries(c.cfg, c.pages, c.mshr[i], item);
      var m := FindEntry(c.mshr, addr, c.cfg.block);
      var f := FirstUnreturned(c.mshr);
      var j := if i == m then f else if i == f then m else i;
      assert EntryCarries(c.cfg, c.pages, r.mshr[j], item);
    }
  }

  lemma {:induction false} FillFrontCarried(c: Cache, write: bool, victim: nat, accepted: bool, item: Item)
    requires ArrayShape(c) && victim <= c.cfg.numWay && Carried(c, item)
    ensures Carried(FillFront(c, write, victim, accepted), item)
  {
    var r := FillFront(c, write, victim, accepted);
    var q := if write then c.writes else c.mshr;
    if r != c {
      var e := q[0];
      var more := Answers(e.rets, e.addr, true, e.deps, |e.rets|);
      if Answered(c.cfg, c.pages, c.out, item) {
        AnswersMore(c.cfg, c.pages, c.out, more, item);
      } else if InEntries(c.cfg, c.pages, q, item) {
        var i :| 0 <= i < |q| && EntryCarries(c.cfg, c.pages, q[i], item);
        if i == 0 {
          AnswersAll(c.cfg, c.pages, c.out, e.rets, e.addr, true, e.deps, item);
        } else {
          assert q[1..][i - 1] == q[i];
        }
      }
    }
  }

  // --------------------------------------------------------- translation keeps it

  lemma {:induction false} MorePages(cfg: Config, pages: set<Page>, p: Page, addr: nat, item: Item)
    requires Translated(cfg, pages, addr, item)
    ensures Translated(cfg, pages + {p}, addr, item)
  {
    var o :| o in pages && o.vpage == item.addr / PageBytes(cfg) && Same(addr, Splice(cfg, o.ppage, item.addr), cfg.block);
    assert o in pages + {p};
  }

  lemma {:induction false} MorePagesCarried(c: Cache, p: Page, item: Item)
    requires Carried(c, item)
    ensures Carried(c.(pages := c.pages + {p}), item)
  {
    var pages := c.pages + {p};
    forall addr: nat | Translated(c.cfg, c.pages, addr, item) ensures Translated(c.cfg, pages, addr, item) {
      MorePages(c.cfg, c.pages, p, addr, item);
    }
    assert Broader(c.cfg, c.pages, pages, item);
    if Queued(c.cfg, c.pages, c.uppers, item) {
      MoreQueued(c.cfg, c.pages, pages, c.uppers, item);
    } else if InLookups(c.cfg, c.pages, c.pq, item) {
      MoreLookups(c.cfg, c.pages, pages, c.pq, item);
    } else if InLookups(c.cfg, c.pages, c.tags, item) {
      MoreLookups(c.cfg, c.pages, pages, c.tags, item);
    } else if InLookups(c.cfg, c.pages, c.stash, item) {
      MoreLookups(c.cfg, c.pages, pages, c.stash, item);
    } else if InEntries(c.cfg, c.pages, c.mshr, item) {
      MoreEntries(c.cfg, c.pages, pages, c.mshr, item);
    } else if InEntries(c.cfg, c.pages, c.writes, item) {
      MoreEntries(c.cfg, c.pages, pages, c.writes, item);
    } else {
      var i :| item.since <= i < |c.out| && ResponseCarries(c.cfg, c.pages, c.out[i], item);
      assert ResponseCarries(c.cfg, pages, c.out[i], item);
    }
  }

  ghost predicate Broader(cfg: Config, x: set<Page>, y: set<Page>, item: Item) {
    forall addr: nat :: Translated(cfg, x, addr, item) ==> Translated(cfg, y, addr, item)
  }

  lemma {:induction false} MoreLookups(cfg: Config, x: set<Page>, y: set<Page>, q: seq<Lookup>, item: Item)
    requires Broader(cfg, x, y, item) && InLookups(cfg, x, q, item)
    ensures InLookups(cfg, y, q, item)
  {
    var i :| 0 <= i < |q| && LookupCarries(cfg, x, q[i], item);
    assert LookupCarries(cfg, y, q[i], item);
  }

  lemma {:induction false} MoreEntries(cfg: Config, x: set<Page>, y: set<Page>, q: seq<Entry>, item: Item)
    requires Broader(cfg, x, y, item) && InEntries(cfg, x, q, item)
    ensures InEntries(cfg, y, q, item)
  {
    var i :| 0 <= i < |q| && EntryCarries(cfg, x, q[i], item);
    assert EntryCarries(cfg, y, q[i], item);
  }

  lemma {:induction false} MoreRequests(cfg: Config, x: set<Page>, y: set<Page>, q: seq<Request>, item: Item)
    requires Broader(cfg, x, y, item) && InRequests(cfg, x, q, item)
    ensures InRequests(cfg, y, q, item)
  {
    var i :| 0 <= i < |q| && RequestCarries(cfg, x, q[i], item);
    assert RequestCarries(cfg, y, q[i], item);
  }

  lemma {:induction false} MoreQueued(cfg: Config, x: set<Page>, y: set<Page>, uppers: seq<Queues>, item: Item)
    requires Broader(cfg, x, y, item) && Queued(cfg, x, uppers, item)
    ensures Queued(cfg, y, uppers, item)
  {
    var qs := uppers[item.ret];
    if InRequests(cfg, x, qs.wq, item) {
      MoreRequests(cfg, x, y, qs.wq, item);
    } else if InRequests(cfg, x, qs.rq, item) {
      MoreRequests(cfg, x, y, qs.rq, item);
    } else {
      MoreRequests(cfg, x, y, qs.pq, item);
    }
  }

  predicate Plain(x: Lookup) {
    !x.translated ==> x.addr == x.vaddr
  }

  // Translating an entry moves it and the item's block to the same place.
  lemma {:induction false} TranslateCarries(cfg: Config, pages: set<Page>, x: Lookup, p: Page, item: Item)
    requires PageBytes(cfg) > 0 && Plain(x) && LookupCarries(cfg, pages, x, item) && p in pages
    ensures LookupCarries(cfg, pages, Translate(cfg, x, p), item)
  {
    if OnPage(cfg, x, p.vpage) {
      SpliceBlock(cfg, p.ppage, x.addr, item.addr);
      assert Same(Splice(cfg, p.ppage, x.vaddr), Splice(cfg, p.ppage, item.addr), cfg.block);
      assert Translated(cfg, pages, Splice(cfg, p.ppage, x.vaddr), item);
    }
  }

  lemma {:induction false} TranslateAllKeeps(cfg: Config, pages: set<Page>, q: seq<Lookup>, p: Page, item: Item)
    requires PageBytes(cfg) > 0 && p in pages && (forall i :: 0 <= i < |q| ==> Plain(q[i])) && InLookups(cfg, pages, q, item)
    ensures InLookups(cfg, pages, TranslateAll(cfg, q, p), item)
  {
    var i :| 0 <= i < |q| && LookupCarries(cfg, pages, q[i], item);
    TranslateCarries(cfg, pages, q[i], p, item);
  }

  lemma {:induction false} PlainFilter(q: seq<Lookup>, p: Lookup -> bool)
    requires forall i :: 0 <= i < |q| ==> Plain(q[i])
    ensures forall i :: 0 <= i < |Filter(q, p)| ==> Plain(Filter(q, p)[i])
  {
    forall i | 0 <= i < |Filter(q, p)| ensures Plain(Filter(q, p)[i]) { FilterMember(q, p, Filter(q, p)[i]); }
  }

  lemma {:induction false} TranslateStashKeeps(cfg: Config, pages: set<Page>, q: seq<Lookup>, p: Page, item: Item)
    requires PageBytes(cfg) > 0 && p in pages && (forall i :: 0 <= i < |q| ==> Plain(q[i])) && InLookups(cfg, pages, q, item)
    ensures InLookups(cfg, pages, TranslateStash(cfg, q, p), item)
  {
    var k := FirstUntranslated(q);
    var matches := (x: Lookup) => PageBytes(cfg) > 0 && OnPage(cfg, x, p.vpage);
    var done, rest := TranslateAll(cfg, Filter(q[k..], matches), p), Filter(q[k..], Not(matches));
    LookupsSplit(cfg, pages, q, k, item);
    if InLookups(cfg, pages, q[k..], item) {
      LookupsFilter(cfg, pages, q[k..], matches, item);
      PlainFilter(q[k..], matches);
      if InLookups(cfg, pages, Filter(q[k..], matches), item) {
        TranslateAllKeeps(cfg, pages, Filter(q[k..], matches), p, item);
      }
    }
    LookupsAppend(cfg, pages, q[..k], done, item);
    LookupsAppend(cfg, pages, q[..k] + done, rest, item);
  }

  lemma {:induction false} FinishTranslationCarried(c: Cache, p: Page, item: Item)
    requires PageBytes(c.cfg) > 0 && Carried(c, item)
    requires (forall i :: 0 <= i < |c.tags| ==> Plain(c.tags[i])) && (forall i :: 0 <= i < |c.stash| ==> Plain(c.stash[i]))
    ensures Carried(FinishTranslation(c, p), item)
  {
    var pages := c.pages + {p};
    MorePagesCarried(c, p, item);
    if InLookups(c.cfg, pages, c.tags, item) { TranslateAllKeeps(c.cfg, pages, c.tags, p, item); }
    if InLookups(c.cfg, pages, c.stash, item) { TranslateStashKeeps(c.cfg, pages, c.stash, p, item); }
  }

  // -------------------------------------------------------- tag checks keep it

  lemma {:induction false} StartedCarries(cfg: Config, pages: set<Page>, q: seq<Request>, k: nat, ready: int, item: Item)
    requires k <= |q| && InRequests(cfg, pages, q, item)
    ensures InLookups(cfg, pages, FromRequests(q[..k], item.ret, ready), item) || InRequests(cfg, pages, q[k..], item)
  {
    var i :| 0 <= i < |q| && RequestCarries(cfg, pages, q[i], item);
    if i < k {
      assert LookupCarries(cfg, pages, FromRequests(q[..k], item.ret, ready)[i], item);
    } else {
      assert q[k..][i - k] == q[i];
    }
  }

  lemma {:induction false} BeginUpperCarried(c: Cache, u: nat, s: Source, n: nat, item: Item)
    requires u < |c.uppers| && Carried(c, item)
    ensures Carried(BeginUpper(c, u, s, n), item)
  {
    hide InRequests, InLookups, InEntries, Answered, StartCount, FromRequests;
    var q := UpperQueue(c.uppers[u], s);
    var k := StartCount(c, q, n);
    var ready := c.now + Latency(c, c.cfg.hitLatency);
    LookupsAppend(c.cfg, c.pages, c.tags, FromRequests(q[..k], u, ready), item);
    if u == item.ret && InRequests(c.cfg, c.pages, q, item) { StartedCarries(c.cfg, c.pages, q, k, ready, item); }
  }

  lemma {:induction false} RestartKeeps(cfg: Config, pages: set<Page>, tags: seq<Lookup>, q: seq<Lookup>, k: nat, ready: int, item: Item)
    requires k <= |q|
    ensures InLookups(cfg, pages, tags, item) ==> InLookups(cfg, pages, tags + RestartAll(q[..k], ready), item)
    ensures InLookups(cfg, pages, q, item) ==>
              InLookups(cfg, pages, tags + RestartAll(q[..k], ready), item) || InLookups(cfg, pages, q[k..], item)
  {
    LookupsAppend(cfg, pages, tags, RestartAll(q[..k], ready), item);
    LookupsSplit(cfg, pages, q, k, item);
    if InLookups(cfg, pages, q[..k], item) { LookupsReplace(cfg, pages, q[..k], RestartAll(q[..k], ready), item); }
  }

  lemma {:induction false} BeginStashCarried(c: Cache, n: nat, item: Item)
    requires Carried(c, item)
    ensures Carried(BeginStash(c, n), item)
  {
    var k := Span(c.stash, n, (x: Lookup) => x.translated);
    RestartKeeps(c.cfg, c.pages, c.tags, c.stash, k, c.now + Latency(c, c.cfg.hitLatency), item);
  }

  lemma {:induction false} BeginPrefetchCarried(c: Cache, n: nat, item: Item)
    requires Carried(c, item)
    ensures Carried(BeginPrefetch(c, n), item)
  {
    var k := Span(c.pq, n, (x: Lookup) => MayStart(c, x.translated));
    RestartKeeps(c.cfg, c.pages, c.tags, c.pq, k, c.now + Latency(c, c.cfg.hitLatency), item);
  }

  lemma {:induction false} IssueCarried(c: Cache, tagsAccepted: set<nat>, stashAccepted: set<nat>, item: Item)
    requires Carried(c, item)
    ensures Carried(IssueTranslations(c, tagsAccepted, stashAccepted), item)
  {
    if InLookups(c.cfg, c.pages, c.tags, item) { LookupsReplace(c.cfg, c.pages, c.tags, Issue(c.tags, tagsAccepted), item); }
    if InLookups(c.cfg, c.pages, c.stash, item) { LookupsReplace(c.cfg, c.pages, c.stash, Issue(c.stash, stashAccepted), item); }
  }

  lemma {:induction false} StashMissedCarried(c: Cache, item: Item)
    requires Carried(c, item)
    ensures Carried(StashMissed(c), item)
  {
    var missed := (x: Lookup) => x.ready <= c.now && !x.translated;
    LookupsAppend(c.cfg, c.pages, c.stash, Filter(c.tags, missed), item);
    if InLookups(c.cfg, c.pages, c.tags, item) { LookupsFilter(c.cfg, c.pages, c.tags, missed, item); }
  }

  lemma {:induction false} HitCarried(c: Cache, i: nat, item: Item)
    requires ArrayShape(c) && i < |c.tags| && IsHit(c, c.tags[i].addr) && Carried(c, item)
    ensures Carried(EraseTag(Hit(c, c.tags[i]), i), item)
  {
    var x := c.tags[i];
    if Answered(c.cfg, c.pages, c.out, item) {
      AnswersMore(c.cfg, c.pages, c.out, Answers(x.rets, x.addr, x.translated, x.deps, |x.rets|), item);
    } else if InLookups(c.cfg, c.pages, c.tags, item) {
      LookupsErase(c.cfg, c.pages, c.tags, i, item);
      if LookupCarries(c.cfg, c.pages, x, item) {
        AnswersAll(c.cfg, c.pages, c.out, x.rets, x.addr, x.translated, x.deps, item);
      }
    }
  }

  lemma {:induction false} MergeCarries(cfg: Config, pages: set<Page>, e: Entry, s: Entry, item: Item)
    requires Same(e.addr, s.addr, cfg.block) && (EntryCarries(cfg, pages, e, item) || EntryCarries(cfg, pages, s, item))
    ensures EntryCarries(cfg, pages, Merge(e, s), item)
  {
    UnionIncludes(e.deps, s.deps);
    UnionIncludes(e.rets, s.rets);
    if EntryCarries(cfg, pages, e, item) {
      MatchesSame(cfg, pages, e.addr, s.addr, true, item);
    } else {
      MatchesSame(cfg, pages, s.addr, e.addr, true, item);
    }
  }

  // Merging a miss into a register loses neither's dependents.
  lemma {:induction false} MergeKeeps(cfg: Config, pages: set<Page>, q: seq<Entry>, m: nat, s: Entry, item: Item)
    requires m < |q| && Same(q[m].addr, s.addr, cfg.block)
    requires InEntries(cfg, pages, q, item) || EntryCarries(cfg, pages, s, item)
    ensures InEntries(cfg, pages, q[m := Merge(q[m], s)], item)
  {
    var r := q[m := Merge(q[m], s)];
    if EntryCarries(cfg, pages, s, item) || EntryCarries(cfg, pages, q[m], item) {
      MergeCarries(cfg, pages, q[m], s, item);
      assert EntryCarries(cfg, pages, r[m], item);
    } else {
      var i :| 0 <= i < |q| && EntryCarries(cfg, pages, q[i], item);
      assert EntryCarries(cfg, pages, r[i], item);
    }
  }

  lemma {:induction false} EntryAppend(cfg: Config, pages: set<Page>, q: seq<Entry>, e: Entry, item: Item)
    requires InEntries(cfg, pages, q, item) || EntryCarries(cfg, pages, e, item)
    ensures InEntries(cfg, pages, q + [e], item)
  {
    var r := q + [e];
    if i :| 0 <= i < |q| && EntryCarries(cfg, pages, q[i], item) {
      assert EntryCarries(cfg, pages, r[i], item);
    } else {
      assert EntryCarries(cfg, pages, r[|q|], item);
    }
  }

  lemma {:induction false} MissCarried(c: Cache, i: nat, accepted: bool, item: Item)
    requires i < |c.tags| && Carried(c, item) && c.tags[i].translated
    requires c.tags[i].fromThis ==> c.tags[i].rets == []
    ensures var (r, ok) := DoMiss(c, c.tags[i], accepted);
            if ok then Carried(EraseTag(r, i), item) else Carried(r, item)
  {
    hide InRequests, InLookups, InEntries, Answered, Queued, FindEntry, Merge;
    var x := c.tags[i];
    var e := Allocate(x);
    var (r, ok) := DoMiss(c, x, accepted);
    if ok {
      if InLookups(c.cfg, c.pages, c.tags, item) { LookupsErase(c.cfg, c.pages, c.tags, i, item); }
      if x.kind.Write? && !c.cfg.matchOffset {
        var w := e.(promise := Some(c.now + Latency(c, c.cfg.fillLatency)));
        if InEntries(c.cfg, c.pages, c.writes, item) || LookupCarries(c.cfg, c.pages, x, item) {
          EntryAppend(c.cfg, c.pages, c.writes, w, item);
        }
      } else if InEntries(c.cfg, c.pages, c.mshr, item) || LookupCarries(c.cfg, c.pages, x, item) {
        var m := FindEntry(c.mshr, x.addr, c.cfg.block);
        if m < |c.mshr| {
          MergeKeeps(c.cfg, c.pages, c.mshr, m, e, item);
        } else if !(x.fromThis && x.skipFill) {
          EntryAppend(c.cfg, c.pages, c.mshr, e, item);
        }
      }
    }
  }
}
