// The miss machinery of a cache (champsim/src/cache.cc): tag checks, the
// translation stash, miss registers, fills and the block array.
module CacheModel {
  import opened Prelude
  import opened SetUnion
  import opened Channels
  import opened Algorithms

  datatype Config = Config(block: Unit, blocksPerPage: Unit, numSet: Unit, numWay: nat, mshrSize: nat, pqSize: nat,
                           rqSize: nat, wqSize: nat, upperPqSize: nat, hitLatency: nat, fillLatency: nat, matchOffset: bool)

  // tag_lookup_type. `rets` are the return queues that wait for it.
  datatype Lookup = Lookup(addr: nat, vaddr: nat, kind: AccessType, fromThis: bool, skipFill: bool, translated: bool,
                           issued: bool, ready: int, deps: seq<nat>, rets: seq<nat>)

  // mshr_type; promise == None is a promise of unknown readiness.
  datatype Entry = Entry(addr: nat, vaddr: nat, kind: AccessType, fromThis: bool, promise: Option<int>, deps: seq<nat>, rets: seq<nat>)

  datatype Way = Way(valid: bool, dirty: bool, prefetch: bool, addr: nat)

  // A request that asked for a response, as an upper level sent it. When it was
  // accepted, `since` responses had been pushed.
  datatype Item = Item(ret: nat, addr: nat, translated: bool, deps: seq<nat>, since: nat)

  // A write that the cache has taken, after `since` blocks had been written back.
  datatype Dirtied = Dirtied(addr: nat, since: nat)

  datatype Page = Page(vpage: nat, ppage: nat)

  // `asked` are the blocks requested from below and not answered yet. `pages`,
  // `out`, `ledger`, `wrote` and `evicted` are histories: translations received,
  // responses pushed, requests accepted, writes taken, and blocks written back.
  datatype Cache = Cache(
    cfg: Config, now: int, warmup: bool, uppers: seq<Queues>,
    pq: seq<Lookup>, tags: seq<Lookup>, stash: seq<Lookup>,
    mshr: seq<Entry>, writes: seq<Entry>, sets: seq<seq<Way>>,
    asked: multiset<nat>, pages: set<Page>, out: seq<Response>, ledger: seq<Item>,
    wrote: seq<Dirtied>, evicted: seq<nat>)

  function Latency(c: Cache, latency: nat): nat {
    if c.warmup then 0 else latency
  }

  function PageBytes(cfg: Config): nat {
    cfg.block * cfg.blocksPerPage
  }

  function BlockOf(cfg: Config, addr: nat): nat {
    addr / cfg.block
  }

  function SetIndex(cfg: Config, addr: nat): nat {
    BlockOf(cfg, addr) % cfg.numSet
  }

  // ---------------------------------------------------------- upper channels

  function CheckUpper(c: Cache, u: nat): Cache
    requires u < |c.uppers|
  {
    var (qs, out) := CheckCollision(c.uppers[u], c.cfg.block, c.cfg.matchOffset, u, c.out);
    c.(uppers := c.uppers[u := qs], out := out)
  }

  // ------------------------------------------------------------ from below

  function FindEntry(q: seq<Entry>, addr: nat, block: Unit): (m: nat)
    ensures m <= |q|
    ensures m < |q| ==> Same(q[m].addr, addr, block)
    ensures forall k :: 0 <= k < m ==> !Same(q[k].addr, addr, block)
  {
    if q == [] || Same(q[0].addr, addr, block) then 0 else 1 + FindEntry(q[1..], addr, block)
  }

  function FirstUnreturned(q: seq<Entry>): (f: nat)
    ensures f <= |q|
    ensures f < |q| ==> q[f].promise.None?
    ensures forall k :: 0 <= k < f ==> q[k].promise.Some?
  {
    if q == [] || q[0].promise.None? then 0 else 1 + FirstUnreturned(q[1..])
  }

  // A response finds its register, which moves behind those already returned.
  function FinishPacket(c: Cache, addr: nat): Cache {
    var m := FindEntry(c.mshr, addr, c.cfg.block);
    var f := FirstUnreturned(c.mshr);
    if m == |c.mshr| || f == |c.mshr| then c
    else
      var returned := c.mshr[m].(promise := Some(c.now + Latency(c, c.cfg.fillLatency)));
      c.(mshr := c.mshr[m := c.mshr[f]][f := returned], asked := c.asked - multiset{BlockOf(c.cfg, addr)})
  }

  function Splice(cfg: Config, ppage: nat, v: nat): nat {
    ppage * PageBytes(cfg) + v % PageBytes(cfg)
  }

  predicate OnPage(cfg: Config, x: Lookup, vpage: nat)
    requires PageBytes(cfg) > 0
  {
    x.vaddr / PageBytes(cfg) == vpage && !x.translated
  }

  function Translate(cfg: Config, x: Lookup, p: Page): Lookup
    requires PageBytes(cfg) > 0
  {
    if OnPage(cfg, x, p.vpage) then x.(addr := Splice(cfg, p.ppage, x.vaddr), translated := true) else x
  }

  function TranslateAll(cfg: Config, q: seq<Lookup>, p: Page): (r: seq<Lookup>)
    requires PageBytes(cfg) > 0
    ensures |r| == |q| && forall i :: 0 <= i < |q| ==> r[i] == Translate(cfg, q[i], p)
  {
    if q == [] then [] else TranslateAll(cfg, q[..|q| - 1], p) + [Translate(cfg, q[|q| - 1], p)]
  }

  function FirstUntranslated(q: seq<Lookup>): (k: nat)
    ensures k <= |q|
    ensures forall i :: 0 <= i < k ==> q[i].translated
  {
    if q == [] || !q[0].translated then 0 else 1 + FirstUntranslated(q[1..])
  }

  // The stash keeps its translated entries in front: those on the page go first
  // among the others (std::stable_partition), and are marked.
  function TranslateStash(cfg: Config, q: seq<Lookup>, p: Page): seq<Lookup>
    requires PageBytes(cfg) > 0
  {
    var k := FirstUntranslated(q);
    var matches := (x: Lookup) => PageBytes(cfg) > 0 && OnPage(cfg, x, p.vpage);
    q[..k] + TranslateAll(cfg, Filter(q[k..], matches), p) + Filter(q[k..], Not(matches))
  }

  function FinishTranslation(c: Cache, p: Page): Cache
    requires PageBytes(c.cfg) > 0
  {
    c.(stash := TranslateStash(c.cfg, c.stash, p), tags := TranslateAll(c.cfg, c.tags, p), pages := c.pages + {p})
  }

  // -------------------------------------------------------------------- fills

  function Answers(rets: seq<nat>, addr: nat, translated: bool, deps: seq<nat>, n: nat): (r: seq<Response>)
    requires n <= |rets|
    ensures |r| == n && forall i :: 0 <= i < n ==> r[i] == Response(rets[i], addr, translated, deps)
  {
    if n == 0 then []
    else Answers(rets, addr, translated, deps, n - 1) + [Response(rets[n - 1], addr, translated, deps)]
  }

  function FirstInvalid(ws: seq<Way>): (w: nat)
    ensures w <= |ws|
    ensures w < |ws| ==> !ws[w].valid
  {
    if ws == [] || !ws[0].valid then 0 else 1 + FirstInvalid(ws[1..])
  }

  predicate ArrayShape(c: Cache) {
    |c.sets| == c.cfg.numSet && forall s :: 0 <= s < |c.sets| ==> |c.sets[s]| == c.cfg.numWay
  }

  // The way a fill takes: an invalid one, or the victim, which may be none.
  function FillWay(c: Cache, e: Entry, victim: nat): (w: nat)
    requires ArrayShape(c) && victim <= c.cfg.numWay
    ensures w <= c.cfg.numWay
  {
    var ws := c.sets[SetIndex(c.cfg, e.addr)];
    if FirstInvalid(ws) < |ws| then FirstInvalid(ws) else victim
  }

  predicate NeedsWriteback(ws: seq<Way>, w: nat) {
    w < |ws| && ws[w].valid && ws[w].dirty
  }

  // handle_fill. A dirty victim must be accepted below first.
  function HandleFill(c: Cache, e: Entry, victim: nat, accepted: bool): (r: (Cache, bool))
    requires ArrayShape(c) && victim <= c.cfg.numWay
    ensures r.0 == c.(sets := r.0.sets, out := r.0.out, evicted := r.0.evicted)
  {
    var s := SetIndex(c.cfg, e.addr);
    var ws := c.sets[s];
    var w := FillWay(c, e, victim);
    if NeedsWriteback(ws, w) && !accepted then (c, false)
    else
      var filled := if w < |ws| then ws[w := Way(true, e.kind.Write?, e.fromThis, e.addr)] else ws;
      (c.(sets := c.sets[s := filled], out := c.out + Answers(e.rets, e.addr, true, e.deps, |e.rets|),
          evicted := if NeedsWriteback(ws, w) then c.evicted + [ws[w].addr] else c.evicted), true)
  }

  predicate DueAt(e: Entry, now: int) {
    e.promise.Some? && e.promise.value <= now
  }

  // The front of the miss registers, or of the writes, is filled if it is due.
  function FillFront(c: Cache, write: bool, victim: nat, accepted: bool): Cache
    requires ArrayShape(c) && victim <= c.cfg.numWay
  {
    var q := if write then c.writes else c.mshr;
    if q == [] || !DueAt(q[0], c.now) then c
    else
      var (r, ok) := HandleFill(c, q[0], victim, accepted);
      if !ok then c else if write then r.(writes := q[1..]) else r.(mshr := q[1..])
  }

  // -------------------------------------------------------- beginning a check

  // initiate_tag_check<true>: the request remembers the return queue of its channel.
  function FromRequest(x: Request, u: nat, ready: int): Lookup {
    Lookup(x.addr, x.vaddr, x.kind, false, false, x.translated, false, ready, x.deps, if x.respond then [u] else [])
  }

  // initiate_tag_check<false>
  function Restart(x: Lookup, ready: int): Lookup {
    x.(ready := ready)
  }

  function RestartAll(q: seq<Lookup>, ready: int): (r: seq<Lookup>)
    ensures |r| == |q| && forall i :: 0 <= i < |q| ==> r[i] == Restart(q[i], ready)
  {
    if q == [] then [] else RestartAll(q[..|q| - 1], ready) + [Restart(q[|q| - 1], ready)]
  }

  function FromRequests(q: seq<Request>, u: nat, ready: int): (r: seq<Lookup>)
    ensures |r| == |q| && forall i :: 0 <= i < |q| ==> r[i] == FromRequest(q[i], u, ready)
  {
    if q == [] then [] else FromRequests(q[..|q| - 1], u, ready) + [FromRequest(q[|q| - 1], u, ready)]
  }

  datatype Source = WriteQueue | ReadQueue | PrefetchQueue

  function UpperQueue(qs: Queues, s: Source): seq<Request> {
    match s
    case WriteQueue => qs.wq
    case ReadQueue => qs.rq
    case PrefetchQueue => qs.pq
  }

  function WithUpperQueue(qs: Queues, s: Source, q: seq<Request>): Queues {
    match s
    case WriteQueue => qs.(wq := q)
    case ReadQueue => qs.(rq := q)
    case PrefetchQueue => qs.(pq := q)
  }

  // can_translate: with a full stash only translated requests may start.
  predicate MayStart(c: Cache, translated: bool) {
    |c.stash| < c.cfg.mshrSize || translated
  }

  function StartCount(c: Cache, q: seq<Request>, n: nat): (k: nat)
    ensures k <= |q| && k <= n
  {
    Span(q, n, (x: Request) => MayStart(c, x.translated))
  }

  function BeginUpper(c: Cache, u: nat, s: Source, n: nat): Cache
    requires u < |c.uppers|
  {
    var q := UpperQueue(c.uppers[u], s);
    var k := StartCount(c, q, n);
    c.(tags := c.tags + FromRequests(q[..k], u, c.now + Latency(c, c.cfg.hitLatency)),
       uppers := c.uppers[u := WithUpperQueue(c.uppers[u], s, q[k..])])
  }

  function BeginStash(c: Cache, n: nat): Cache {
    var k := Span(c.stash, n, (x: Lookup) => x.translated);
    c.(tags := c.tags + RestartAll(c.stash[..k], c.now + Latency(c, c.cfg.hitLatency)), stash := c.stash[k..])
  }

  function BeginPrefetch(c: Cache, n: nat): Cache {
    var k := Span(c.pq, n, (x: Lookup) => MayStart(c, x.translated));
    c.(tags := c.tags + RestartAll(c.pq[..k], c.now + Latency(c, c.cfg.hitLatency)), pq := c.pq[k..])
  }

  // Translations the translator accepted, by position.
  function Issue(q: seq<Lookup>, accepted: set<nat>): (r: seq<Lookup>)
    ensures |r| == |q|
    ensures forall i :: 0 <= i < |q| ==>
              r[i] == if !q[i].issued && !q[i].translated && i in accepted then q[i].(issued := true) else q[i]
  {
    if q == [] then []
    else
      var n := |q| - 1;
      Issue(q[..n], accepted) + [if !q[n].issued && !q[n].translated && n in accepted then q[n].(issued := true) else q[n]]
  }

  function IssueTranslations(c: Cache, tagsAccepted: set<nat>, stashAccepted: set<nat>): Cache {
    c.(tags := Issue(c.tags, tagsAccepted), stash := Issue(c.stash, stashAccepted))
  }

  // Entries that are due but not translated move to the stash.
  function StashMissed(c: Cache): Cache {
    var missed := (x: Lookup) => x.ready <= c.now && !x.translated;
    c.(stash := c.stash + Filter(c.tags, missed), tags := Filter(c.tags, Not(missed)))
  }

  // --------------------------------------------------------------- tag checks

  function FindWay(ws: seq<Way>, addr: nat, block: Unit): (w: nat)
    ensures w <= |ws|
    ensures w < |ws| ==> ws[w].valid && Same(ws[w].addr, addr, block)
    ensures forall k :: 0 <= k < w ==> !(ws[k].valid && Same(ws[k].addr, addr, block))
  {
    if ws == [] || (ws[0].valid && Same(ws[0].addr, addr, block)) then 0 else 1 + FindWay(ws[1..], addr, block)
  }

  predicate IsHit(c: Cache, addr: nat)
    requires ArrayShape(c)
  {
    var ws := c.sets[SetIndex(c.cfg, addr)];
    FindWay(ws, addr, c.cfg.block) < |ws|
  }

  // The writes taken, once lookup x has been.
  function Wrote(c: Cache, x: Lookup): seq<Dirtied> {
    if x.kind.Write? then c.wrote + [Dirtied(x.addr, |c.evicted|)] else c.wrote
  }

  // try_hit, when it hits.
  function Hit(c: Cache, x: Lookup): Cache
    requires ArrayShape(c) && IsHit(c, x.addr)
  {
    var s := SetIndex(c.cfg, x.addr);
    var w := FindWay(c.sets[s], x.addr, c.cfg.block);
    var way := c.sets[s][w];
    // a demand hit makes a prefetched block an ordinary one
    var touched := way.(dirty := way.dirty || x.kind.Write?, prefetch := way.prefetch && x.fromThis);
    c.(sets := c.sets[s := c.sets[s][w := touched]], out := c.out + Answers(x.rets, x.addr, x.translated, x.deps, |x.rets|),
       wrote := Wrote(c, x))
  }

  function Allocate(x: Lookup): Entry {
    Entry(x.addr, x.vaddr, x.kind, x.fromThis, None, x.deps, x.rets)
  }

  // mshr_type::merge
  function Merge(predecessor: Entry, successor: Entry): Entry {
    (if successor.kind.Prefetch? then predecessor else successor)
      .(promise := predecessor.promise, deps := Union(predecessor.deps, successor.deps),
        rets := Union(predecessor.rets, successor.rets))
  }

  // handle_miss; `accepted` says whether the lower level takes the request.
  function HandleMiss(c: Cache, x: Lookup, accepted: bool): (r: (Cache, bool)) {
    var m := FindEntry(c.mshr, x.addr, c.cfg.block);
    if m < |c.mshr| then (c.(mshr := c.mshr[m := Merge(c.mshr[m], Allocate(x))], wrote := Wrote(c, x)), true)
    else if |c.mshr| == c.cfg.mshrSize || !accepted then (c, false)
    else if x.fromThis && x.skipFill then (c.(wrote := Wrote(c, x)), true)
    else
      (c.(mshr := c.mshr + [Allocate(x)], asked := c.asked + multiset{BlockOf(c.cfg, x.addr)}, wrote := Wrote(c, x)), true)
  }

  // handle_write: a writeback is treated like a fill.
  function HandleWrite(c: Cache, x: Lookup): Cache {
    c.(writes := c.writes + [Allocate(x).(promise := Some(c.now + Latency(c, c.cfg.fillLatency)))], wrote := Wrote(c, x))
  }

  function DoMiss(c: Cache, x: Lookup, accepted: bool): (r: (Cache, bool)) {
    if x.kind.Write? && !c.cfg.matchOffset then (HandleWrite(c, x), true) else HandleMiss(c, x, accepted)
  }

  function EraseTag(c: Cache, i: nat): Cache
    requires i < |c.tags|
  {
    c.(tags := c.tags[..i] + c.tags[i + 1..])
  }

  // The first pass over n entries from i on: hits are answered and removed
  // (std::stable_partition with try_hit). The result counts the misses left in front.
  function HitPass(c: Cache, i: nat, n: nat): (r: (Cache, nat))
    requires ArrayShape(c) && i + n <= |c.tags|
    ensures r.1 <= |r.0.tags|
    decreases n
  {
    if n == 0 then (c, i)
    else if IsHit(c, c.tags[i].addr) then HitPass(EraseTag(Hit(c, c.tags[i]), i), i, n - 1)
    else HitPass(c, i + 1, n - 1)
  }

  // The second pass over n entries from i on: misses that find room are removed.
  function MissPass(c: Cache, i: nat, n: nat, accepted: seq<bool>): Cache
    requires i + n <= |c.tags|
    decreases n
  {
    if n == 0 then c
    else
      var (r, ok) := DoMiss(c, c.tags[i], accepted != [] && accepted[0]);
      var rest := if accepted == [] then [] else accepted[1..];
      if ok then MissPass(EraseTag(r, i), i, n - 1, rest) else MissPass(r, i + 1, n - 1, rest)
  }

  function ReadyTags(c: Cache, n: nat): (k: nat)
    ensures k <= |c.tags|
  {
    Span(c.tags, n, (x: Lookup) => x.ready <= c.now && x.translated)
  }

  function TagCheck(c: Cache, n: nat, accepted: seq<bool>): Cache
    requires ArrayShape(c)
  {
    var (r, misses) := HitPass(c, 0, ReadyTags(c, n));
    MissPass(r, 0, misses, accepted)
  }

  // ----------------------------------------------------------------- arrivals

  function QueueSize(cfg: Config, s: Source): nat {
    match s
    case WriteQueue => cfg.wqSize
    case ReadQueue => cfg.rqSize
    case PrefetchQueue => cfg.upperPqSize
  }

  // add_wq, add_rq and add_pq on the channel of upper level u.
  function Arrive(c: Cache, u: nat, s: Source, x: Request): (r: (Cache, bool))
    requires u < |c.uppers|
  {
    var (q, ok) := AddQueue(UpperQueue(c.uppers[u], s), QueueSize(c.cfg, s), x);
    (c.(uppers := c.uppers[u := WithUpperQueue(c.uppers[u], s, q)],
        ledger := if ok && x.respond then c.ledger + [Item(u, x.addr, x.translated, x.deps, |c.out|)] else c.ledger), ok)
  }

  // prefetch_line
  function PrefetchLine(c: Cache, addr: nat, fillThisLevel: bool, isVirtual: bool): (r: (Cache, bool)) {
    if |c.pq| >= c.cfg.pqSize then (c, false)
    else
      (c.(pq := c.pq + [Lookup(addr, if isVirtual then addr else 0, Prefetch, true, !fillThisLevel, !isVirtual, false, c.now, [], [])]),
       true)
  }
}
