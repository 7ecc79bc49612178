// What a cache promises as a lower level: it pushes no more responses than it
// was asked for.
module CacheAnswers {
  import opened Prelude
  import opened SetUnion
  import opened Channels
  import opened Algorithms
  import opened CacheModel
  import opened CacheInvariant
  import opened CacheSteps
  import opened CacheRuns

  // A return queue and a block, and the translations that lead to the block.
  datatype Target = Target(cfg: Config, pages: set<Page>, to: nat, addr: nat, translated: bool)

  // A request for this address may end in a response for the block.
  predicate Reaches(t: Target, addr: nat, translated: bool) {
    Matches(t.cfg, t.pages, t.addr, t.translated, Item(t.to, addr, translated, [], 0))
  }

  function One(b: bool): nat {
    if b then 1 else 0
  }

  function Copies(rets: seq<nat>, to: nat): nat {
    Total(rets, (r: nat) => One(r == to))
  }

  // Responses to come, or pushed, or asked for, by one element of each list.
  function Requested(t: Target): Request -> nat {
    (x: Request) => One(x.respond && Reaches(t, x.addr, x.translated))
  }

  function Looked(t: Target): Lookup -> nat {
    (x: Lookup) => if Reaches(t, x.addr, x.translated) then Copies(x.rets, t.to) else 0
  }

  function Missed(t: Target): Entry -> nat {
    (e: Entry) => if Reaches(t, e.addr, true) then Copies(e.rets, t.to) else 0
  }

  function Pushed(t: Target): Response -> nat {
    (r: Response) => One(r.to == t.to && r.translated == t.translated && Same(r.addr, t.addr, t.cfg.block))
  }

  function Asked(t: Target): Item -> nat {
    (item: Item) => One(item.ret == t.to && Matches(t.cfg, t.pages, t.addr, t.translated, item))
  }

  function InQueues(t: Target, qs: Queues): nat {
    Total(qs.wq, Requested(t)) + Total(qs.rq, Requested(t)) + Total(qs.pq, Requested(t))
  }

  function Above(t: Target, uppers: seq<Queues>): nat {
    if t.to < |uppers| then InQueues(t, uppers[t.to]) else 0
  }

  function Waiting(t: Target, c: Cache): nat {
    Above(t, c.uppers) + Total(c.pq, Looked(t)) + Total(c.tags, Looked(t)) + Total(c.stash, Looked(t))
    + Total(c.mshr, Missed(t)) + Total(c.writes, Missed(t))
  }

  // Responses pushed and still to come are covered by requests accepted.
  predicate Covered(t: Target, c: Cache) {
    Total(c.out, Pushed(t)) + Waiting(t, c) <= Total(c.ledger, Asked(t))
  }

  // --------------------------------------------------------------- addresses

  lemma {:induction false} PushedReaches(t: Target, addr: nat, translated: bool)
    requires translated == t.translated && Same(addr, t.addr, t.cfg.block)
    ensures Reaches(t, addr, translated)
  {
  }

  lemma {:induction false} SameReaches(t: Target, a: nat, b: nat, translated: bool)
    requires Same(a, b, t.cfg.block)
    ensures Reaches(t, a, translated) <==> Reaches(t, b, translated)
  {
    if Reaches(t, a, translated) { SameReachesOne(t, a, b, translated); }
    if Reaches(t, b, translated) { SameReachesOne(t, b, a, translated); }
  }

  lemma {:induction false} SameReachesOne(t: Target, a: nat, b: nat, translated: bool)
    requires Same(a, b, t.cfg.block) && Reaches(t, a, translated)
    ensures Reaches(t, b, translated)
  {
    if translated != t.translated {
      var p :| p in t.pages && p.vpage == a / PageBytes(t.cfg) && Same(t.addr, Splice(t.cfg, p.ppage, a), t.cfg.block);
      SpliceBlock(t.cfg, p.ppage, a, b);
      assert p in t.pages && p.vpage == b / PageBytes(t.cfg) && Same(t.addr, Splice(t.cfg, p.ppage, b), t.cfg.block);
    }
  }

  // A translated entry reaches no more than it did.
  lemma {:induction false} TranslateLooked(t: Target, x: Lookup, p: Page)
    requires PageBytes(t.cfg) > 0 && p in t.pages && Plain(x)
    ensures Looked(t)(CacheModel.Translate(t.cfg, x, p)) <= Looked(t)(x)
  {
    if OnPage(t.cfg, x, p.vpage) && Reaches(t, Splice(t.cfg, p.ppage, x.vaddr), true) {
      assert t.translated;
      assert p in t.pages && p.vpage == x.addr / PageBytes(t.cfg) && Same(t.addr, Splice(t.cfg, p.ppage, x.addr), t.cfg.block);
      assert Reaches(t, x.addr, false);
    }
  }

  // ---------------------------------------------------------------- return lists

  lemma {:induction false} CopiesHead(s: seq<nat>, to: nat)
    requires s != []
    ensures Copies(s, to) == One(s[0] == to) + Copies(s[1..], to)
  {
    var f := (r: nat) => One(r == to);
    TotalSplit(s, 1, f);
    assert s[..1] == [s[0]];
    TotalOne(s[0], f);
    assert Copies(s, to) == Total(s, f) && Copies(s[1..], to) == Total(s[1..], f);
  }

  lemma {:induction false} ConsCopies(x: nat, s: seq<nat>, to: nat)
    ensures Copies([x] + s, to) == One(x == to) + Copies(s, to)
  {
    CopiesHead([x] + s, to);
    assert ([x] + s)[1..] == s;
  }

  lemma {:induction false} UnionCopies(x: seq<nat>, y: seq<nat>, to: nat)
    ensures Copies(Union(x, y), to) <= Copies(x, to) + Copies(y, to)
    decreases |x| + |y|
  {
    if x != [] && y != [] {
      CopiesHead(x, to);
      CopiesHead(y, to);
      if x[0] < y[0] {
        UnionCopies(x[1..], y, to);
        ConsCopies(x[0], Union(x[1..], y), to);
      } else if y[0] < x[0] {
        UnionCopies(x, y[1..], to);
        ConsCopies(y[0], Union(x, y[1..]), to);
      } else {
        UnionCopies(x[1..], y[1..], to);
        ConsCopies(x[0], Union(x[1..], y[1..]), to);
      }
    }
  }

  lemma {:induction false} OneCopy(u: nat, to: nat)
    ensures Copies([u], to) == One(u == to)
  {
    TotalOne(u, (r: nat) => One(r == to));
  }

  // Answering everyone on a list pushes as many responses as the list promises.
  lemma {:induction false} AnswersPushed(t: Target, rets: seq<nat>, addr: nat, translated: bool, deps: seq<nat>)
    ensures Total(Answers(rets, addr, translated, deps, |rets|), Pushed(t)) <=
            if Reaches(t, addr, translated) then Copies(rets, t.to) else 0
  {
    var more := Answers(rets, addr, translated, deps, |rets|);
    if translated == t.translated && Same(addr, t.addr, t.cfg.block) {
      PushedReaches(t, addr, translated);
      TotalLess(more, Pushed(t), rets, (r: nat) => One(r == t.to));
    } else {
      NonePushed(t, more);
    }
  }

  lemma {:induction false} NonePushed(t: Target, out: seq<Response>)
    requires forall i :: 0 <= i < |out| ==> Pushed(t)(out[i]) == 0
    ensures Total(out, Pushed(t)) == 0
  {
    if out != [] { NonePushed(t, out[..|out| - 1]); }
  }

  // -------------------------------------------------------- collision checks

  lemma {:induction false} MergeIntoRequested(t: Target, q: seq<Request>, f: nat, k: nat)
    requires f < k < |q| && Same(q[f].addr, q[k].addr, t.cfg.block) && q[f].translated == q[k].translated
    ensures Total(MergeInto(q, f, k), Requested(t)) <= Total(q, Requested(t))
  {
    var m := q[f := Merged(q[f], q[k])];
    TotalUpdate(q, f, Merged(q[f], q[k]), Requested(t));
    TotalErase(m, k, Requested(t));
    SameReaches(t, q[f].addr, q[k].addr, q[k].translated);
  }

  lemma {:induction false} MarkRequested(t: Target, q: seq<Request>, k: nat)
    requires k < |q|
    ensures Total(MarkChecked(q, k), Requested(t)) == Total(q, Requested(t))
  {
    TotalUpdate(q, k, q[k].(checked := true), Requested(t));
  }

  lemma {:induction false} MergeFromRequested(t: Target, q: seq<Request>, k: nat, unit: Unit)
    requires k <= |q| && (unit == 1 || unit == t.cfg.block)
    ensures Total(MergeFrom(q, k, unit), Requested(t)) <= Total(q, Requested(t))
    decreases |q| - k
  {
    hide Requested, Total, MergeInto, MarkChecked, Collision;
    if k < |q| {
      var f := Collision(q, k, q[k], unit);
      if f < k {
        FinerUnit(q[f].addr, q[k].addr, unit, t.cfg.block);
        MergeIntoRequested(t, q, f, k);
        MergeFromRequested(t, MergeInto(q, f, k), k, unit);
      } else {
        MarkRequested(t, q, k);
        MergeFromRequested(t, MarkChecked(q, k), k + 1, unit);
      }
    }
  }

  // Requests of channel `to`, and the responses pushed while they are checked.
  function InRead(t: Target, r: Read, to: nat): nat {
    Total(r.out, Pushed(t)) + if to == t.to then Total(r.q, Requested(t)) else 0
  }

  lemma {:induction false} ForwardRead(t: Target, r: Read, k: nat, to: nat)
    requires k < |r.q|
    ensures InRead(t, Read(Erase(r.q, k), r.out + Forward(r.q[k], to)), to) <= InRead(t, r, to)
  {
    var x := r.q[k];
    TotalErase(r.q, k, Requested(t));
    TotalAppend(r.out, Forward(x, to), Pushed(t));
    if x.respond {
      var y := Response(to, x.addr, x.translated, x.deps);
      TotalOne(y, Pushed(t));
      if Pushed(t)(y) == 1 { PushedReaches(t, x.addr, x.translated); }
    }
  }

  lemma {:induction false} ReadFromRequested(t: Target, wq: seq<Request>, r: Read, k: nat, writeUnit: Unit, to: nat)
    requires k <= |r.q|
    ensures InRead(t, ReadFrom(wq, r, k, writeUnit, t.cfg.block, to), to) <= InRead(t, r, to)
    decreases |r.q| - k
  {
    hide Requested, Pushed, Total, MergeInto, MarkChecked, Collision, Forward, Erase;
    if k < |r.q| {
      var x := r.q[k];
      var f := Collision(r.q, k, x, t.cfg.block);
      if Collision(wq, |wq|, x, writeUnit) < |wq| {
        ForwardRead(t, r, k, to);
        ReadFromRequested(t, wq, Read(Erase(r.q, k), r.out + Forward(x, to)), k, writeUnit, to);
      } else if f < k {
        MergeIntoRequested(t, r.q, f, k);
        ReadFromRequested(t, wq, Read(MergeInto(r.q, f, k), r.out), k, writeUnit, to);
      } else {
        MarkRequested(t, r.q, k);
        ReadFromRequested(t, wq, Read(MarkChecked(r.q, k), r.out), k + 1, writeUnit, to);
      }
    }
  }

  lemma {:induction false} CheckCovered(t: Target, c: Cache, u: nat)
    requires u < |c.uppers| && t.cfg == c.cfg && Covered(t, c)
    ensures Covered(t, CheckUpper(c, u))
  {
    hide Requested, Pushed, Looked, Missed, Total, MergeFrom, ReadFrom, FirstUnchecked;
    var qs := c.uppers[u];
    var unit: Unit := if c.cfg.matchOffset then 1 else c.cfg.block;
    var wq := MergeFrom(qs.wq, FirstUnchecked(qs.wq), unit);
    MergeFromRequested(t, qs.wq, FirstUnchecked(qs.wq), unit);
    ReadFromRequested(t, wq, Read(qs.rq, c.out), FirstUnchecked(qs.rq), unit, u);
    var rq := ReadFrom(wq, Read(qs.rq, c.out), FirstUnchecked(qs.rq), unit, c.cfg.block, u);
    ReadFromRequested(t, wq, Read(qs.pq, rq.out), FirstUnchecked(qs.pq), unit, u);
  }

  // ----------------------------------------------- responses and fills from below

  lemma {:induction false} AnswerCovered(t: Target, c: Cache, addr: nat)
    requires Covered(t, c)
    ensures Covered(t, FinishPacket(c, addr))
  {
    hide Requested, Pushed, Looked, Total;
    var m, f := FindEntry(c.mshr, addr, c.cfg.block), FirstUnreturned(c.mshr);
    if m < |c.mshr| && f < |c.mshr| {
      var returned := c.mshr[m].(promise := Some(c.now + Latency(c, c.cfg.fillLatency)));
      TotalUpdate(c.mshr, m, c.mshr[f], Missed(t));
      TotalUpdate(c.mshr[m := c.mshr[f]], f, returned, Missed(t));
    }
  }

  lemma {:induction false} FillCovered(t: Target, c: Cache, write: bool, victim: nat, accepted: bool)
    requires ArrayShape(c) && victim <= c.cfg.numWay && Covered(t, c)
    ensures Covered(t, FillFront(c, write, victim, accepted))
  {
    hide Requested, Pushed, Looked, Total, FillWay, NeedsWriteback;
    var r := FillFront(c, write, victim, accepted);
    var q := if write then c.writes else c.mshr;
    if r != c {
      var e := q[0];
      TotalSplit(q, 1, Missed(t));
      assert q[..1] == [e];
      TotalOne(e, Missed(t));
      AnswersPushed(t, e.rets, e.addr, true, e.deps);
      TotalAppend(c.out, Answers(e.rets, e.addr, true, e.deps, |e.rets|), Pushed(t));
    }
  }

  lemma {:induction false} TranslateAllLooked(t: Target, q: seq<Lookup>, p: Page)
    requires PageBytes(t.cfg) > 0 && p in t.pages && LookupsOk(q)
    ensures Total(TranslateAll(t.cfg, q, p), Looked(t)) <= Total(q, Looked(t))
  {
    forall i | 0 <= i < |q| ensures Looked(t)(TranslateAll(t.cfg, q, p)[i]) <= Looked(t)(q[i]) {
      assert LookupOk(q[i]);
      TranslateLooked(t, q[i], p);
    }
    TotalLess(TranslateAll(t.cfg, q, p), Looked(t), q, Looked(t));
  }

  lemma {:induction false} TranslateStashLooked(t: Target, q: seq<Lookup>, p: Page)
    requires PageBytes(t.cfg) > 0 && p in t.pages && LookupsOk(q)
    ensures Total(TranslateStash(t.cfg, q, p), Looked(t)) <= Total(q, Looked(t))
  {
    hide Looked, Total;
    var k := FirstUntranslated(q);
    var matches := (x: Lookup) => PageBytes(t.cfg) > 0 && OnPage(t.cfg, x, p.vpage);
    var on, off := Filter(q[k..], matches), Filter(q[k..], Not(matches));
    FilterOk(q[k..], matches);
    TotalSplit(q, k, Looked(t));
    TotalFilter(q[k..], matches, Looked(t));
    TranslateAllLooked(t, on, p);
    TotalAppend(q[..k] + TranslateAll(t.cfg, on, p), off, Looked(t));
    TotalAppend(q[..k], TranslateAll(t.cfg, on, p), Looked(t));
  }

  lemma {:induction false} TranslationCovered(t: Target, c: Cache, p: Page)
    requires PageBytes(c.cfg) > 0 && t.cfg == c.cfg && p in t.pages && ListsOk(c) && Covered(t, c)
    ensures Covered(t, FinishTranslation(c, p))
  {
    hide Looked, Total, TranslateStash, TranslateAll, Requested, Pushed, Missed;
    TranslateAllLooked(t, c.tags, p);
    TranslateStashLooked(t, c.stash, p);
  }

  // --------------------------------------------------------------- tag checks

  // A request that starts its tag check stands for as much as before.
  lemma {:induction false} StartedLooked(t: Target, q: seq<Request>, u: nat, ready: int)
    ensures Total(FromRequests(q, u, ready), Looked(t)) <= if u == t.to then Total(q, Requested(t)) else 0
  {
    var r := FromRequests(q, u, ready);
    forall i | 0 <= i < |q| ensures Looked(t)(r[i]) <= if u == t.to then Requested(t)(q[i]) else 0 {
      OneCopy(u, t.to);
      assert Copies([], t.to) == 0;
    }
    if u == t.to {
      TotalLess(r, Looked(t), q, Requested(t));
    } else {
      TotalLess(r, Looked(t), q, (x: Request) => 0);
      TotalZero(q);
    }
  }

  lemma {:induction false} TotalZero(q: seq<Request>)
    ensures Total(q, (x: Request) => 0) == 0
  {
    if q != [] { TotalZero(q[..|q| - 1]); }
  }

  lemma {:induction false} BeginCovered(t: Target, c: Cache, u: nat, s: Source, n: nat)
    requires u < |c.uppers| && Covered(t, c)
    ensures Covered(t, BeginUpper(c, u, s, n))
  {
    hide Requested, Looked, Total, Pushed, Missed, StartCount;
    var q := UpperQueue(c.uppers[u], s);
    var k := StartCount(c, q, n);
    var started := FromRequests(q[..k], u, c.now + Latency(c, c.cfg.hitLatency));
    StartedLooked(t, q[..k], u, c.now + Latency(c, c.cfg.hitLatency));
    TotalSplit(q, k, Requested(t));
    TotalAppend(c.tags, started, Looked(t));
  }

  lemma {:induction false} RestartLooked(t: Target, tags: seq<Lookup>, q: seq<Lookup>, k: nat, ready: int)
    requires k <= |q|
    ensures Total(tags + RestartAll(q[..k], ready), Looked(t)) + Total(q[k..], Looked(t))
         <= Total(tags, Looked(t)) + Total(q, Looked(t))
  {
    TotalSplit(q, k, Looked(t));
    TotalLess(RestartAll(q[..k], ready), Looked(t), q[..k], Looked(t));
    TotalAppend(tags, RestartAll(q[..k], ready), Looked(t));
  }

  lemma {:induction false} BeginStashCovered(t: Target, c: Cache, n: nat)
    requires Covered(t, c)
    ensures Covered(t, BeginStash(c, n))
  {
    hide Requested, Looked, Total, Pushed, Missed, Span;
    var k := Span(c.stash, n, (x: Lookup) => x.translated);
    RestartLooked(t, c.tags, c.stash, k, c.now + Latency(c, c.cfg.hitLatency));
  }

  lemma {:induction false} BeginPrefetchCovered(t: Target, c: Cache, n: nat)
    requires Covered(t, c)
    ensures Covered(t, BeginPrefetch(c, n))
  {
    hide Requested, Looked, Total, Pushed, Missed, Span;
    var k := Span(c.pq, n, (x: Lookup) => MayStart(c, x.translated));
    RestartLooked(t, c.tags, c.pq, k, c.now + Latency(c, c.cfg.hitLatency));
  }

  lemma {:induction false} IssueCovered(t: Target, c: Cache, tagsAccepted: set<nat>, stashAccepted: set<nat>)
    requires Covered(t, c)
    ensures Covered(t, IssueTranslations(c, tagsAccepted, stashAccepted))
  {
    hide Total;
    var r := IssueTranslations(c, tagsAccepted, stashAccepted);
    TotalLess(r.tags, Looked(t), c.tags, Looked(t));
    TotalLess(r.stash, Looked(t), c.stash, Looked(t));
  }

  lemma {:induction false} StashCovered(t: Target, c: Cache)
    requires Covered(t, c)
    ensures Covered(t, StashMissed(c))
  {
    hide Requested, Looked, Total, Pushed, Missed;
    var missed := (x: Lookup) => x.ready <= c.now && !x.translated;
    TotalFilter(c.tags, missed, Looked(t));
    TotalAppend(c.stash, Filter(c.tags, missed), Looked(t));
  }

  lemma {:induction false} HitCovered(t: Target, c: Cache, i: nat)
    requires ArrayShape(c) && i < |c.tags| && IsHit(c, c.tags[i].addr) && Covered(t, c)
    ensures Covered(t, EraseTag(Hit(c, c.tags[i]), i))
  {
    hide Requested, Total, Pushed, Missed;
    var x := c.tags[i];
    AnswersPushed(t, x.rets, x.addr, x.translated, x.deps);
    TotalAppend(c.out, Answers(x.rets, x.addr, x.translated, x.deps, |x.rets|), Pushed(t));
    TotalErase(c.tags, i, Looked(t));
  }

  lemma {:induction false} MergeMissed(t: Target, q: seq<Entry>, m: nat, e: Entry)
    requires m < |q| && Same(q[m].addr, e.addr, t.cfg.block)
    ensures Total(q[m := Merge(q[m], e)], Missed(t)) <= Total(q, Missed(t)) + Missed(t)(e)
  {
    hide Total;
    TotalUpdate(q, m, Merge(q[m], e), Missed(t));
    UnionCopies(q[m].rets, e.rets, t.to);
    SameReaches(t, q[m].addr, e.addr, true);
  }

  lemma {:induction false} MoreMissed(t: Target, q: seq<Entry>, e: Entry)
    ensures Total(q + [e], Missed(t)) == Total(q, Missed(t)) + Missed(t)(e)
  {
    TotalAppend(q, [e], Missed(t));
    TotalOne(e, Missed(t));
  }

  lemma {:induction false} MissCovered(t: Target, c: Cache, i: nat, accepted: bool)
    requires i < |c.tags| && c.tags[i].translated && t.cfg == c.cfg && Covered(t, c)
    ensures var (r, ok) := DoMiss(c, c.tags[i], accepted); Covered(t, if ok then EraseTag(r, i) else r)
  {
    hide Above, Asked, Requested, Total, Pushed, FindEntry, Merge, Allocate, Missed, Looked;
    var x := c.tags[i];
    var e := Allocate(x);
    var m := FindEntry(c.mshr, x.addr, c.cfg.block);
    TotalErase(c.tags, i, Looked(t));
    AllocateMissed(t, x, Some(c.now + Latency(c, c.cfg.fillLatency)));
    if m < |c.mshr| { MergeMissed(t, c.mshr, m, e); }
    MoreMissed(t, c.mshr, e);
    MoreMissed(t, c.writes, e.(promise := Some(c.now + Latency(c, c.cfg.fillLatency))));
  }

  // A register, or a write, waits for as much as the lookup it comes from.
  lemma {:induction false} AllocateMissed(t: Target, x: Lookup, promise: Option<int>)
    requires x.translated
    ensures Allocate(x).addr == x.addr && Missed(t)(Allocate(x)) == Looked(t)(x)
    ensures Missed(t)(Allocate(x).(promise := promise)) == Looked(t)(x)
  {
  }

  lemma {:induction false} HitPassCovered(t: Target, c: Cache, i: nat, n: nat)
    requires ArrayShape(c) && i + n <= |c.tags| && Covered(t, c)
    ensures Covered(t, HitPass(c, i, n).0)
    decreases n
  {
    hide Covered;
    if n > 0 {
      if IsHit(c, c.tags[i].addr) {
        HitCovered(t, c, i);
        HitPassCovered(t, EraseTag(Hit(c, c.tags[i]), i), i, n - 1);
      } else {
        HitPassCovered(t, c, i + 1, n - 1);
      }
    }
  }

  // Entries n of the tag queue from i on are translated.
  predicate TranslatedFrom(c: Cache, i: nat, n: nat) {
    i + n <= |c.tags| && forall k :: i <= k < i + n ==> c.tags[k].translated
  }

  lemma {:induction false} MissPassCovered(t: Target, c: Cache, i: nat, n: nat, accepted: seq<bool>)
    requires TranslatedFrom(c, i, n) && t.cfg == c.cfg && Covered(t, c)
    ensures Covered(t, MissPass(c, i, n, accepted))
    decreases n
  {
    hide Covered, DoMiss;
    if n > 0 {
      var now := accepted != [] && accepted[0];
      var rest := if accepted == [] then [] else accepted[1..];
      var (r, ok) := DoMiss(c, c.tags[i], now);
      MissKeeps(c, c.tags[i], now);
      MissCovered(t, c, i, now);
      if ok { MissPassCovered(t, EraseTag(r, i), i, n - 1, rest); } else { MissPassCovered(t, r, i + 1, n - 1, rest); }
    }
  }

  lemma {:induction false} TagsCovered(t: Target, c: State, n: nat, accepted: seq<bool>)
    requires t.cfg == c.cfg && Covered(t, c)
    ensures Covered(t, TagCheck(c, n, accepted))
  {
    hide Covered;
    var k := ReadyTags(c, n);
    var (r, misses) := HitPassStep(c, 0, k);
    HitPassCovered(t, c, 0, k);
    HitPassConfig(c, 0, k);
    MissPassCovered(t, r, 0, misses, accepted);
  }

  // ----------------------------------------------------------------- arrivals

  lemma {:induction false} MoreAbove(t: Target, uppers: seq<Queues>, u: nat, s: Source, y: Request)
    requires u < |uppers|
    ensures Above(t, uppers[u := WithUpperQueue(uppers[u], s, UpperQueue(uppers[u], s) + [y])])
         == Above(t, uppers) + if u == t.to then Requested(t)(y) else 0
  {
    hide Requested, Total;
    TotalAppend(UpperQueue(uppers[u], s), [y], Requested(t));
    TotalOne(y, Requested(t));
  }

  lemma {:induction false} MoreAsked(t: Target, ledger: seq<Item>, x: Request, u: nat, since: nat)
    ensures var item := Item(u, x.addr, x.translated, x.deps, since);
            Total(ledger + [item], Asked(t)) == Total(ledger, Asked(t)) + One(u == t.to && Reaches(t, x.addr, x.translated))
  {
    hide Total;
    var item := Item(u, x.addr, x.translated, x.deps, since);
    TotalAppend(ledger, [item], Asked(t));
    TotalOne(item, Asked(t));
    ItemReaches(t, item);
  }

  lemma {:induction false} ArriveCovered(t: Target, c: Cache, u: nat, s: Source, x: Request)
    requires u < |c.uppers| && t.cfg == c.cfg && Covered(t, c)
    ensures Covered(t, Arrive(c, u, s, x).0)
  {
    hide Total, Looked, Missed, Pushed, Asked, Above, UpperQueue, WithUpperQueue, QueueSize, Reaches;
    MoreAbove(t, c.uppers, u, s, x.(checked := false));
    MoreAsked(t, c.ledger, x, u, |c.out|);
    if |UpperQueue(c.uppers[u], s)| >= QueueSize(c.cfg, s) { SameAbove(t, c.uppers, u, s); }
  }

  lemma {:induction false} SameAbove(t: Target, uppers: seq<Queues>, u: nat, s: Source)
    requires u < |uppers|
    ensures uppers[u := WithUpperQueue(uppers[u], s, UpperQueue(uppers[u], s))] == uppers
  {
  }

  lemma {:induction false} ItemReaches(t: Target, item: Item)
    ensures Matches(t.cfg, t.pages, t.addr, t.translated, item) <==> Reaches(t, item.addr, item.translated)
  {
  }

  lemma {:induction false} PrefetchCovered(t: Target, c: Cache, addr: nat, fill: bool, isVirtual: bool)
    requires Covered(t, c)
    ensures Covered(t, PrefetchLine(c, addr, fill, isVirtual).0)
  {
    hide Total, Requested, Missed, Pushed;
    var x := Lookup(addr, if isVirtual then addr else 0, Prefetch, true, !fill, !isVirtual, false, c.now, [], []);
    TotalAppend(c.pq, [x], Looked(t));
    TotalOne(x, Looked(t));
    NoCopies(t.to);
  }

  lemma {:induction false} NoCopies(to: nat)
    ensures Copies([], to) == 0
  {
  }

  // -------------------------------------------------------------------- runs

  lemma {:induction false} StepCovered(t: Target, c: State, a: Action)
    requires t.cfg == c.cfg && Step(c, a).pages <= t.pages && Covered(t, c)
    ensures Covered(t, Step(c, a))
  {
    hide Inv, Covered;
    PageOk(c);
    if Allowed(c, a) {
      match a
      case Check(u) => CheckCovered(t, c, u);
      case Answer(addr) => AnswerCovered(t, c, addr);
      case Translate(p) => TranslationCovered(t, c, p);
      case Fill(write, victim, accepted) => FillCovered(t, c, write, victim, accepted);
      case Begin(u, s, n) => BeginCovered(t, c, u, s, n);
      case BeginStashed(n) => BeginStashCovered(t, c, n);
      case BeginPrefetched(n) => BeginPrefetchCovered(t, c, n);
      case Issue(tagsAccepted, stashAccepted) => IssueCovered(t, c, tagsAccepted, stashAccepted);
      case Stash => StashCovered(t, c);
      case Tags(n, acceptedBelow) => TagsCovered(t, c, n, acceptedBelow);
      case Arrival(u, s, x) => ArriveCovered(t, c, u, s, x);
      case Prefetching(addr, fill, isVirtual) => PrefetchCovered(t, c, addr, fill, isVirtual);
      case Tick(dt, endWarmup) => TickCovered(t, c, dt, endWarmup);
    }
  }

  lemma {:induction false} PageOk(c: State)
    ensures PageBytes(c.cfg) > 0 && ListsOk(c) && ArrayShape(c)
  {
    MulMono(0, c.cfg.block, c.cfg.blocksPerPage);
  }

  lemma {:induction false} TickCovered(t: Target, c: Cache, dt: nat, endWarmup: bool)
    requires Covered(t, c)
    ensures Covered(t, c.(now := c.now + dt, warmup := c.warmup && !endWarmup))
  {
  }

  lemma {:induction false} RunCovered(t: Target, cfg: Config, uppers: nat, actions: seq<Action>)
    requires t.cfg == cfg && Reached(cfg, uppers, actions).pages <= t.pages
    ensures Covered(t, Reached(cfg, uppers, actions))
  {
    hide Inv, Step, Start;
    if actions == [] {
      StartCovered(t, cfg, uppers);
    } else {
      var n := |actions| - 1;
      var c := Reached(cfg, uppers, actions[..n]);
      StepConfig(c, actions[n]);
      SameConfig(cfg, uppers, actions[..n]);
      RunCovered(t, cfg, uppers, actions[..n]);
      StepCovered(t, c, actions[n]);
    }
  }

  lemma {:induction false} StartCovered(t: Target, cfg: Config, uppers: nat)
    ensures Covered(t, Start(cfg, uppers))
  {
  }

  // Responses pushed to a return queue for a block never outnumber the accepted
  // requests that asked for one: a cache keeps, towards its upper levels, the
  // promise it needs from below.
  lemma {:induction false} AnswersAskedFor(cfg: Config, uppers: nat, actions: seq<Action>, to: nat, addr: nat, translated: bool)
    ensures var c := Reached(cfg, uppers, actions);
            Total(c.out, (r: Response) => One(r.to == to && r.translated == translated && Same(r.addr, addr, c.cfg.block)))
            <= Total(c.ledger, (item: Item) => One(item.ret == to && Matches(c.cfg, c.pages, addr, translated, item)))
  {
    var c := Reached(cfg, uppers, actions);
    SameConfig(cfg, uppers, actions);
    var t := Target(cfg, c.pages, to, addr, translated);
    RunCovered(t, cfg, uppers, actions);
    TotalLess(c.out, (r: Response) => One(r.to == to && r.translated == translated && Same(r.addr, addr, c.cfg.block)),
              c.out, Pushed(t));
    TotalLess(c.ledger, Asked(t),
              c.ledger, (item: Item) => One(item.ret == to && Matches(c.cfg, c.pages, addr, translated, item)));
  }
}
