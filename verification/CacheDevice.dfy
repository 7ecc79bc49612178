// The channel queues and the cache as the program performs them: queues, miss
// registers and the flat block array updated in place (champsim/src/channel.cc,
// champsim/src/cache.cc).
module CacheDevice {
  import opened Prelude
  import opened SetUnion
  import opened FlatSets
  import opened Channels
  import opened Algorithms
  import opened CacheModel
  import opened CacheInvariant
  import opened CacheSteps
  import opened CacheRuns

  // ------------------------------------------------------------------ searches

  method FindMatch(q: seq<Request>, hi: nat, addr: nat, unit: Unit) returns (f: nat)
    requires hi <= |q|
    ensures f == FindAddr(q, hi, addr, unit)
  {
    f := 0;
    while f < hi && !Same(q[f].addr, addr, unit)
      invariant f <= hi && forall k :: 0 <= k < f ==> !Same(q[k].addr, addr, unit)
    {
      f := f + 1;
    }
    ghost var g := FindAddr(q, hi, addr, unit);
    assert g < hi ==> Same(q[g].addr, addr, unit);
  }

  method FindCollision(q: seq<Request>, hi: nat, x: Request, unit: Unit) returns (f: nat)
    requires hi <= |q|
    ensures f == Collision(q, hi, x, unit)
  {
    f := FindMatch(q, hi, x.addr, unit);
    if f < hi && q[f].translated != x.translated { f := hi; }
  }

  method FindUnchecked(q: seq<Request>) returns (k: nat)
    ensures k == FirstUnchecked(q)
  {
    k := 0;
    while k < |q| && q[k].checked
      invariant k <= |q| && forall i :: 0 <= i < k ==> q[i].checked
    {
      k := k + 1;
    }
    ghost var g := FirstUnchecked(q);
    assert g < |q| ==> !q[g].checked;
  }

  // ------------------------------------------------------------------ channels

  // champsim::channel. `returned` is the queue of responses to the level above.
  class ChannelDevice {
    const block: Unit
    const matchOffset: bool
    const id: nat
    var WQ: seq<Request>
    var RQ: seq<Request>
    var PQ: seq<Request>
    var returned: seq<Response>

    constructor (block: Unit, matchOffset: bool, id: nat)
      ensures this.block == block && this.matchOffset == matchOffset && this.id == id
      ensures WQ == [] && RQ == [] && PQ == [] && returned == []
    {
      this.block, this.matchOffset, this.id := block, matchOffset, id;
      WQ, RQ, PQ, returned := [], [], [], [];
    }

    method CheckWriteQueue(unit: Unit)
      modifies this`WQ
      ensures WQ == MergeFrom(old(WQ), FirstUnchecked(old(WQ)), unit)
    {
      var k: nat := FindUnchecked(WQ);
      ghost var result := MergeFrom(WQ, k, unit);
      while k < |WQ|
        invariant k <= |WQ| && MergeFrom(WQ, k, unit) == result
        decreases |WQ| - k
      {
        var f := FindCollision(WQ, k, WQ[k], unit);
        if f < k {
          WQ := MergeInto(WQ, f, k);
        } else {
          WQ := WQ[k := WQ[k].(checked := true)];
          k := k + 1;
        }
      }
    }

    // Forward from the write queue, or merge, for the read or prefetch queue.
    method CheckReads(q: seq<Request>, writeUnit: Unit) returns (q': seq<Request>)
      modifies this`returned
      ensures Read(q', returned) == ReadFrom(WQ, Read(q, old(returned)), FirstUnchecked(q), writeUnit, block, id)
    {
      hide Collision, Erase, MergeInto;
      q' := q;
      var k: nat := FindUnchecked(q');
      ghost var result := ReadFrom(WQ, Read(q', returned), k, writeUnit, block, id);
      while k < |q'|
        invariant k <= |q'| && ReadFrom(WQ, Read(q', returned), k, writeUnit, block, id) == result
        decreases |q'| - k
      {
        var write := FindCollision(WQ, |WQ|, q'[k], writeUnit);
        var f := FindCollision(q', k, q'[k], block);
        if write < |WQ| {
          returned := returned + if q'[k].respond then [Response(id, q'[k].addr, q'[k].translated, q'[k].deps)] else [];
          q' := Erase(q', k);
        } else if f < k {
          q' := MergeInto(q', f, k);
        } else {
          q' := q'[k := q'[k].(checked := true)];
          k := k + 1;
        }
      }
    }

    method CheckCollisions()
      modifies this
      ensures (Queues(WQ, RQ, PQ), returned)
           == CheckCollision(old(Queues(WQ, RQ, PQ)), block, matchOffset, id, old(returned))
    {
      var writeUnit: Unit := if matchOffset then 1 else block;
      CheckWriteQueue(writeUnit);
      RQ := CheckReads(RQ, writeUnit);
      PQ := CheckReads(PQ, writeUnit);
    }

    method AddRq(size: nat, x: Request) returns (ok: bool)
      modifies this`RQ
      ensures (RQ, ok) == AddQueue(old(RQ), size, x)
    {
      if |RQ| >= size { return false; }
      RQ := RQ + [x.(checked := false)];
      return true;
    }

    method AddWq(size: nat, x: Request) returns (ok: bool)
      modifies this`WQ
      ensures (WQ, ok) == AddQueue(old(WQ), size, x)
    {
      if |WQ| >= size { return false; }
      WQ := WQ + [x.(checked := false)];
      return true;
    }

    method AddPq(size: nat, x: Request) returns (ok: bool)
      modifies this`PQ
      ensures (PQ, ok) == AddQueue(old(PQ), size, x)
    {
      if |PQ| >= size { return false; }
      PQ := PQ + [x.(checked := false)];
      return true;
    }
  }

  // --------------------------------------------- algorithms with equal predicates

  lemma {:induction false} UntranslatedAt(q: seq<Lookup>, k: nat)
    requires k <= |q| && (forall i :: 0 <= i < k ==> q[i].translated) && (k < |q| ==> !q[k].translated)
    ensures FirstUntranslated(q) == k
  {
    if k > 0 { UntranslatedAt(q[1..], k - 1); }
  }

  lemma {:induction false} SpanSame<T(!new)>(s: seq<T>, n: nat, p: T -> bool, q: T -> bool)
    requires forall x :: p(x) == q(x)
    ensures Span(s, n, p) == Span(s, n, q)
  {
    if s != [] && n > 0 { SpanSame(s[1..], n - 1, p, q); }
  }

  lemma {:induction false} FilterSame<T(!new)>(s: seq<T>, p: T -> bool, q: T -> bool)
    requires forall x :: p(x) == q(x)
    ensures Filter(s, p) == Filter(s, q)
  {
    if s != [] { FilterSame(s[..|s| - 1], p, q); }
  }

  // --------------------------------------------------------------------- cache

  class CacheUnit {
    const cfg: Config
    const block: array<Way>
    var now: int
    var warmup: bool
    var uppers: seq<Queues>
    var internalPQ: seq<Lookup>
    var inflightTagCheck: seq<Lookup>
    var translationStash: seq<Lookup>
    var MSHR: seq<Entry>
    var inflightWrites: seq<Entry>
    var out: seq<Response>
    ghost var asked: multiset<nat>
    ghost var pages: set<Page>
    ghost var ledger: seq<Item>
    ghost var wrote: seq<Dirtied>
    ghost var evicted: seq<nat>

    ghost predicate Valid()
      reads this, block
    {
      block.Length == cfg.numSet * cfg.numWay
    }

    ghost function View(): Cache
      requires Valid()
      reads this, block
    {
      Cache(cfg, now, warmup, uppers, internalPQ, inflightTagCheck, translationStash, MSHR, inflightWrites,
                  Rows(block[..], cfg.numSet, cfg.numWay), asked, pages, out, ledger, wrote, evicted)
    }

    constructor (cfg: Config, levels: nat)
      ensures Valid() && View() == Start(cfg, levels) && fresh(block)
    {
      this.cfg := cfg;
      var size: nat := cfg.numSet * cfg.numWay;
      block := new Way[size](_ => Way(false, false, false, 0));
      now, warmup := 0, true;
      uppers := seq(levels, _ => Queues([], [], []));
      internalPQ, inflightTagCheck, translationStash, MSHR, inflightWrites, out := [], [], [], [], [], [];
      asked, pages, ledger, wrote, evicted := multiset{}, {}, [], [], [];
      new;
      EmptyRows(block[..], cfg.numSet, cfg.numWay);
    }

    function Delayed(latency: nat): int
      reads this
    {
      now + if warmup then 0 else latency
    }

    // ---------------------------------------------------------- from below

    method FindMshr(addr: nat) returns (m: nat)
      ensures m == FindEntry(MSHR, addr, cfg.block)
    {
      m := 0;
      while m < |MSHR| && !Same(MSHR[m].addr, addr, cfg.block)
        invariant m <= |MSHR| && forall k :: 0 <= k < m ==> !Same(MSHR[k].addr, addr, cfg.block)
      {
        m := m + 1;
      }
      ghost var g := FindEntry(MSHR, addr, cfg.block);
      assert g < |MSHR| ==> Same(MSHR[g].addr, addr, cfg.block);
    }

    method FindUnreturned() returns (f: nat)
      ensures f == FirstUnreturned(MSHR)
    {
      f := 0;
      while f < |MSHR| && MSHR[f].promise.Some?
        invariant f <= |MSHR| && forall k :: 0 <= k < f ==> MSHR[k].promise.Some?
      {
        f := f + 1;
      }
      ghost var g := FirstUnreturned(MSHR);
      assert g < |MSHR| ==> MSHR[g].promise.None?;
    }

    // finish_packet: one answer for a request that asked for one.
    method FinishPacket(addr: nat)
      requires Valid() && MshrOk(View()) && BlockOf(cfg, addr) in asked
      modifies this`MSHR, this`asked
      ensures Valid() && View() == CacheModel.FinishPacket(old(View()), addr)
    {
      AnswerFinds(View(), addr);
      var mshrEntry := FindMshr(addr);
      var firstUnreturned := FindUnreturned();
      assert mshrEntry < |MSHR|;
      var returned := MSHR[mshrEntry].(promise := Some(Delayed(cfg.fillLatency)));
      // order it after the returned entries, before the others
      MSHR := MSHR[mshrEntry := MSHR[firstUnreturned]][firstUnreturned := returned];
      asked := asked - multiset{BlockOf(cfg, addr)};
    }

    predicate OnVirtualPage(x: Lookup, vpage: nat)
      requires PageBytes(cfg) > 0
    {
      x.vaddr / PageBytes(cfg) == vpage && !x.translated
    }

    // The entries of a page, marked as translated one by one.
    method MarkTranslated(q: seq<Lookup>, p: Page) returns (r: seq<Lookup>)
      requires PageBytes(cfg) > 0
      ensures r == TranslateAll(cfg, q, p)
    {
      r := q;
      for i := 0 to |q|
        invariant |r| == |q| && forall k :: i <= k < |q| ==> r[k] == q[k]
        invariant forall k :: 0 <= k < i ==> r[k] == CacheModel.Translate(cfg, q[k], p)
      {
        if OnVirtualPage(r[i], p.vpage) {
          r := r[i := r[i].(addr := Splice(cfg, p.ppage, r[i].vaddr), translated := true)];
        }
      }
    }

    // Behind the entries that are translated already, those of the page go first,
    // in order (find_if_not, stable_partition), and are marked.
    method RestartStashed(p: Page)
      requires PageBytes(cfg) > 0
      modifies this`translationStash
      ensures translationStash == TranslateStash(cfg, old(translationStash), p)
    {
      hide Filter, TranslateAll;
      var stash := translationStash;
      ghost var matches := (x: Lookup) => PageBytes(cfg) > 0 && OnPage(cfg, x, p.vpage);
      var begin := 0;
      while begin < |stash| && stash[begin].translated
        invariant begin <= |stash| && forall k :: 0 <= k < begin ==> stash[k].translated
      {
        begin := begin + 1;
      }
      assert FirstUntranslated(stash) == begin by { UntranslatedAt(stash, begin); }
      ghost var rest := stash[begin..];
      FilterEmpty(matches);
      FilterEmpty(Not(matches));
      var onPage, others := [], [];
      for i := 0 to |stash| - begin
        invariant onPage == Filter(rest[..i], matches) && others == Filter(rest[..i], Not(matches))
      {
        FilterSnoc(rest, i, matches);
        FilterSnoc(rest, i, Not(matches));
        var x := stash[begin + i];
        if OnVirtualPage(x, p.vpage) { onPage := onPage + [x]; } else { others := others + [x]; }
      }
      assert rest[..|rest|] == rest;
      var marked := MarkTranslated(onPage, p);
      translationStash := stash[..begin] + marked + others;
    }

    // finish_translation: stashed entries of the page are restarted, in front of
    // those that still wait; entries being checked are translated in place.
    method FinishTranslated(p: Page)
      requires Valid()
      modifies this`translationStash, this`inflightTagCheck, this`pages
      ensures Valid() && PageBytes(cfg) > 0 && View() == FinishTranslation(old(View()), p)
    {
      hide TranslateStash, TranslateAll;
      MulMono(0, cfg.block, cfg.blocksPerPage);
      RestartStashed(p);
      inflightTagCheck := MarkTranslated(inflightTagCheck, p);
      pages := pages + {p};
    }

    // prefetch_line
    method PrefetchOne(addr: nat, fillThisLevel: bool, isVirtual: bool) returns (ok: bool)
      requires Valid()
      modifies this`internalPQ
      ensures Valid() && (View(), ok) == PrefetchLine(old(View()), addr, fillThisLevel, isVirtual)
    {
      if |internalPQ| >= cfg.pqSize { return false; }
      internalPQ := internalPQ
        + [Lookup(addr, if isVirtual then addr else 0, Prefetch, true, !fillThisLevel, !isVirtual, false, now, [], [])];
      return true;
    }

    // -------------------------------------------------------------------- fills

    method SetBegin(addr: nat) returns (s: nat, begin: nat)
      requires Valid()
      ensures s == SetIndex(cfg, addr) && begin == s * cfg.numWay && begin + cfg.numWay <= block.Length
      ensures block[begin..begin + cfg.numWay] == View().sets[s]
    {
      s := BlockOf(cfg, addr) % cfg.numSet;
      begin := s * cfg.numWay;
      MulMono(s, cfg.numSet, cfg.numWay);
    }

    method FindInvalid(begin: nat) returns (w: nat)
      requires begin + cfg.numWay <= block.Length
      ensures w == FirstInvalid(block[begin..begin + cfg.numWay])
    {
      ghost var ws := block[begin..begin + cfg.numWay];
      ghost var first := FirstInvalid(ws);
      w := 0;
      assert ws[0..] == ws;
      while w < cfg.numWay && block[begin + w].valid
        invariant w <= cfg.numWay && w + FirstInvalid(ws[w..]) == first
      {
        assert ws[w..][1..] == ws[w + 1..];
        w := w + 1;
      }
    }

    method PushAnswers(rets: seq<nat>, addr: nat, translated: bool, deps: seq<nat>)
      modifies this`out
      ensures out == old(out) + Answers(rets, addr, translated, deps, |rets|)
    {
      for i := 0 to |rets|
        invariant out == old(out) + Answers(rets, addr, translated, deps, i)
      {
        out := out + [Response(rets[i], addr, translated, deps)];
      }
    }

    // handle_fill; writes may not bypass.
    method HandleFill(e: Entry, victim: nat, accepted: bool) returns (ok: bool)
      requires Valid() && victim <= cfg.numWay && (e.kind.Write? ==> victim < cfg.numWay)
      modifies this`out, this`evicted, block
      ensures Valid() && ArrayShape(old(View())) && (View(), ok) == CacheModel.HandleFill(old(View()), e, victim, accepted)
    {
      var s, begin := SetBegin(e.addr);
      var way := FindInvalid(begin);
      if way == cfg.numWay { way := victim; }
      assert way <= cfg.numWay;
      assert way != cfg.numWay || !e.kind.Write?;
      assert View().sets[s := View().sets[s]] == View().sets;
      if way < cfg.numWay && block[begin + way].valid && block[begin + way].dirty && !accepted { return false; }
      if way < cfg.numWay {
        if block[begin + way].valid && block[begin + way].dirty { evicted := evicted + [block[begin + way].addr]; }
        WriteOneCell(block[..], cfg.numSet, cfg.numWay, s, way, Way(true, e.kind.Write?, e.fromThis, e.addr));
        block[begin + way] := Way(true, e.kind.Write?, e.fromThis, e.addr);
      }
      PushAnswers(e.rets, e.addr, true, e.deps);
      return true;
    }

    method FillOne(write: bool, victim: nat, accepted: bool)
      requires Valid() && victim <= cfg.numWay
      requires var q := if write then inflightWrites else MSHR; q != [] && q[0].kind.Write? ==> victim < cfg.numWay
      modifies this, block
      ensures Valid() && ArrayShape(old(View())) && View() == FillFront(old(View()), write, victim, accepted)
    {
      var q := if write then inflightWrites else MSHR;
      if q == [] || q[0].promise.None? || q[0].promise.value > now { return; }
      var ok := HandleFill(q[0], victim, accepted);
      if ok {
        if write { inflightWrites := q[1..]; } else { MSHR := q[1..]; }
      }
    }

    // -------------------------------------------------------- beginning a check

    method BeginFromUpper(u: nat, s: Source, n: nat)
      requires Valid() && u < |uppers|
      modifies this`inflightTagCheck, this`uppers
      ensures Valid() && View() == BeginUpper(old(View()), u, s, n)
    {
      var ready, avail := Delayed(cfg.hitLatency), |translationStash| < cfg.mshrSize;
      var canTranslate := (x: Request) => avail || x.translated;
      var initiate := (x: Request) => FromRequest(x, u, ready);
      var q := UpperQueue(uppers[u], s);
      ghost var c := View();
      ghost var spec := (x: Request) => MayStart(c, x.translated);
      SpanSame(q, n, canTranslate, spec);
      var rest, tags, moved := TransformWhileN(q, inflightTagCheck, n, canTranslate, initiate);
      assert Map(q[..moved], initiate) == FromRequests(q[..moved], u, ready);
      inflightTagCheck := tags;
      uppers := uppers[u := WithUpperQueue(uppers[u], s, rest)];
    }

    method BeginFromStash(n: nat)
      requires Valid()
      modifies this`inflightTagCheck, this`translationStash
      ensures Valid() && View() == BeginStash(old(View()), n)
    {
      var ready := Delayed(cfg.hitLatency);
      var isTranslated := (x: Lookup) => x.translated;
      var initiate := (x: Lookup) => Restart(x, ready);
      ghost var spec := (x: Lookup) => x.translated;
      SpanSame(translationStash, n, isTranslated, spec);
      var rest, tags, moved := TransformWhileN(translationStash, inflightTagCheck, n, isTranslated, initiate);
      assert Map(translationStash[..moved], initiate) == RestartAll(translationStash[..moved], ready);
      inflightTagCheck, translationStash := tags, rest;
    }

    method BeginFromPrefetches(n: nat)
      requires Valid()
      modifies this`inflightTagCheck, this`internalPQ
      ensures Valid() && View() == BeginPrefetch(old(View()), n)
    {
      hide Span, RestartAll, Map;
      var ready, avail := Delayed(cfg.hitLatency), |translationStash| < cfg.mshrSize;
      var canTranslate := (x: Lookup) => avail || x.translated;
      var initiate := (x: Lookup) => Restart(x, ready);
      ghost var c := View();
      ghost var spec := (x: Lookup) => MayStart(c, x.translated);
      SpanSame(internalPQ, n, canTranslate, spec);
      var rest, tags, moved := TransformWhileN(internalPQ, inflightTagCheck, n, canTranslate, initiate);
      assert Map(internalPQ[..moved], initiate) == RestartAll(internalPQ[..moved], ready);
      inflightTagCheck, internalPQ := tags, rest;
    }

    // Due but untranslated entries move to the stash.
    method StashMisses()
      requires Valid()
      modifies this`inflightTagCheck, this`translationStash
      ensures Valid() && View() == StashMissed(old(View()))
    {
      var time, tags := now, inflightTagCheck;
      var missed := (x: Lookup) => x.ready <= time && !x.translated;
      ghost var c := View();
      ghost var spec := (x: Lookup) => x.ready <= c.now && !x.translated;
      FilterSame(tags, missed, spec);
      FilterSame(tags, Not(missed), Not(spec));
      var range := new Lookup[|tags|](i requires 0 <= i < |tags| => tags[i]);
      assert range[..] == tags;
      var kept, stash := ExtractIf(range, translationStash, missed);
      inflightTagCheck, translationStash := range[..kept], stash;
    }

    // --------------------------------------------------------------- tag checks

    method FindHit(begin: nat, addr: nat) returns (w: nat)
      requires begin + cfg.numWay <= block.Length
      ensures w == FindWay(block[begin..begin + cfg.numWay], addr, cfg.block)
    {
      ghost var ws := block[begin..begin + cfg.numWay];
      w := 0;
      while w < cfg.numWay && !(block[begin + w].valid && Same(block[begin + w].addr, addr, cfg.block))
        invariant w <= cfg.numWay && forall k :: 0 <= k < w ==> !(ws[k].valid && Same(ws[k].addr, addr, cfg.block))
      {
        w := w + 1;
      }
      ghost var g := FindWay(ws, addr, cfg.block);
      assert g < |ws| ==> ws[g].valid && Same(ws[g].addr, addr, cfg.block);
      assert w < cfg.numWay ==> ws[w].valid && Same(ws[w].addr, addr, cfg.block);
    }

    // The history of the writes taken.
    ghost method Note(x: Lookup)
      requires Valid()
      modifies this`wrote
      ensures Valid() && wrote == Wrote(old(View()), x)
    {
      if x.kind.Write? { wrote := wrote + [Dirtied(x.addr, |evicted|)]; }
    }

    // The block that is hit.
    method Touch(s: nat, w: nat, x: Lookup)
      requires Valid() && s < cfg.numSet && w < cfg.numWay
      modifies block
      ensures Valid() && ArrayShape(old(View()))
      ensures var sets, way := old(View()).sets, old(View()).sets[s][w];
              View() == old(View()).(sets := sets[s := sets[s][w :=
                way.(dirty := way.dirty || x.kind.Write?, prefetch := way.prefetch && x.fromThis)]])
    {
      var begin := s * cfg.numWay;
      MulMono(s, cfg.numSet, cfg.numWay);
      var way := block[begin + w];
      var touched := way.(dirty := way.dirty || x.kind.Write?, prefetch := way.prefetch && x.fromThis);
      WriteOneCell(block[..], cfg.numSet, cfg.numWay, s, w, touched);
      block[begin + w] := touched;
    }

    method TryHit(x: Lookup) returns (hit: bool)
      requires Valid()
      modifies this`out, this`wrote, block
      ensures Valid() && ArrayShape(old(View())) && hit == IsHit(old(View()), x.addr)
      ensures View() == if hit then Hit(old(View()), x) else old(View())
    {
      hide Answers, Rows;
      var s, begin := SetBegin(x.addr);
      var w := FindHit(begin, x.addr);
      hit := w < cfg.numWay;
      if hit {
        Touch(s, w, x);
        PushAnswers(x.rets, x.addr, x.translated, x.deps);
        Note(x);
      }
    }

    // One turn: a hit is answered and removed.
    method HitTurn(i: nat) returns (hit: bool)
      requires Valid() && i < |inflightTagCheck|
      modifies this`out, this`inflightTagCheck, this`wrote, block
      ensures Valid() && ArrayShape(old(View())) && hit == IsHit(old(View()), old(inflightTagCheck[i].addr))
      ensures View() == if hit then EraseTag(Hit(old(View()), old(inflightTagCheck[i])), i) else old(View())
      ensures |inflightTagCheck| == if hit then |old(inflightTagCheck)| - 1 else |old(inflightTagCheck)|
    {
      hide Hit, IsHit;
      hit := TryHit(inflightTagCheck[i]);
      if hit { inflightTagCheck := inflightTagCheck[..i] + inflightTagCheck[i + 1..]; }
    }

    // stable_partition with try_hit, then erasing the hits.
    method HitSome(n: nat) returns (misses: nat)
      requires Valid() && n <= |inflightTagCheck|
      modifies this`out, this`inflightTagCheck, this`wrote, block
      ensures Valid() && ArrayShape(old(View())) && (View(), misses) == HitPass(old(View()), 0, n)
    {
      hide Hit, IsHit, EraseTag;
      ghost var result := HitPass(View(), 0, n);
      misses := 0;
      var left: nat := n;
      while left > 0
        invariant Valid() && misses + left <= |inflightTagCheck|
        invariant HitPass(View(), misses, left) == result
        decreases left
      {
        var hit := HitTurn(misses);
        if !hit { misses := misses + 1; }
        left := left - 1;
      }
    }

    // handle_miss
    method HandleMissed(x: Lookup, accepted: bool) returns (ok: bool)
      requires Valid()
      modifies this`MSHR, this`asked, this`wrote
      ensures Valid() && (View(), ok) == HandleMiss(old(View()), x, accepted)
    {
      var mshrEntry := FindMshr(x.addr);
      if mshrEntry < |MSHR| {
        MSHR := MSHR[mshrEntry := Merge(MSHR[mshrEntry], Allocate(x))];
        Note(x);
        return true;
      }
      if |MSHR| == cfg.mshrSize || !accepted { return false; }
      if !x.fromThis || !x.skipFill {
        MSHR := MSHR + [Allocate(x)];
        asked := asked + multiset{BlockOf(cfg, x.addr)};
      }
      Note(x);
      return true;
    }

    method MissOne(x: Lookup, accepted: bool) returns (ok: bool)
      requires Valid()
      modifies this`MSHR, this`asked, this`inflightWrites, this`wrote
      ensures Valid() && (View(), ok) == DoMiss(old(View()), x, accepted)
    {
      if x.kind.Write? && !cfg.matchOffset {
        inflightWrites := inflightWrites + [Allocate(x).(promise := Some(Delayed(cfg.fillLatency)))];
        Note(x);
        return true;
      }
      ok := HandleMissed(x, accepted);
    }

    // One turn: a miss that finds room is removed.
    method MissTurn(i: nat, accepted: bool) returns (ok: bool)
      requires Valid() && i < |inflightTagCheck|
      modifies this`MSHR, this`asked, this`inflightWrites, this`inflightTagCheck, this`wrote
      ensures var (r, done) := DoMiss(old(View()), old(inflightTagCheck[i]), accepted);
              Valid() && ok == done && i < |r.tags| && View() == if ok then EraseTag(r, i) else r
      ensures |inflightTagCheck| == if ok then |old(inflightTagCheck)| - 1 else |old(inflightTagCheck)|
    {
      hide DoMiss;
      ok := MissOne(inflightTagCheck[i], accepted);
      if ok { inflightTagCheck := inflightTagCheck[..i] + inflightTagCheck[i + 1..]; }
    }

    method MissSome(n: nat, acceptedBelow: seq<bool>)
      requires Valid() && n <= |inflightTagCheck|
      modifies this`MSHR, this`asked, this`inflightWrites, this`inflightTagCheck, this`wrote
      ensures Valid() && View() == MissPass(old(View()), 0, n, acceptedBelow)
    {
      hide DoMiss, EraseTag;
      ghost var result := MissPass(View(), 0, n, acceptedBelow);
      var i, left: nat, answers := 0, n, acceptedBelow;
      while left > 0
        invariant Valid() && i + left <= |inflightTagCheck|
        invariant MissPass(View(), i, left, answers) == result
        decreases left
      {
        var ok := MissTurn(i, answers != [] && answers[0]);
        if !ok { i := i + 1; }
        answers := if answers == [] then [] else answers[1..];
        left := left - 1;
      }
    }

    method CheckTags(n: nat, acceptedBelow: seq<bool>)
      requires Valid()
      modifies this, block
      ensures Valid() && ArrayShape(old(View())) && View() == TagCheck(old(View()), n, acceptedBelow)
    {
      var time := now;
      var ready := (x: Lookup) => x.ready <= time && x.translated;
      ghost var c := View();
      ghost var spec := (x: Lookup) => x.ready <= c.now && x.translated;
      SpanSame(inflightTagCheck, n, ready, spec);
      var window := GetSpan(inflightTagCheck, n, ready);
      var misses := HitSome(window);
      MissSome(misses, acceptedBelow);
    }
  }

  lemma {:induction false} EmptyRows(flat: seq<Way>, sets: nat, ways: nat)
    requires |flat| == sets * ways && forall k :: 0 <= k < |flat| ==> flat[k] == Way(false, false, false, 0)
    ensures Rows(flat, sets, ways) == seq(sets, _ => EmptyWays(ways))
  {
    forall i | 0 <= i < sets ensures RowAt(flat, sets, ways, i) == EmptyWays(ways) { MulMono(i, sets, ways); }
  }
}
