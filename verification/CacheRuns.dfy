// Runs of a cache: every interleaving of the steps that CACHE::operate is made
// of, with whatever arrives from above and whatever is answered from below.
module CacheRuns {
  import opened Prelude
  import opened SetUnion
  import opened Channels
  import opened Algorithms
  import opened CacheModel
  import opened CacheInvariant
  import opened CacheSteps

  ghost predicate Inv(c: Cache) {
    ListsOk(c) && MshrOk(c) && WritesOk(c) && ArrayOk(c) && AllCarried(c)
  }

  function EmptyWays(n: nat): (ws: seq<Way>)
    ensures |ws| == n && forall w :: 0 <= w < n ==> ws[w] == Way(false, false, false, 0)
  {
    seq(n, _ => Way(false, false, false, 0))
  }

  function Start(cfg: Config, uppers: nat): Cache {
    Cache(cfg, 0, true, seq(uppers, _ => Queues([], [], [])), [], [], [], [], [], seq(cfg.numSet, _ => EmptyWays(cfg.numWay)),
          multiset{}, {}, [], [], [], [])
  }

  lemma {:induction false} StartInv(cfg: Config, uppers: nat)
    ensures Inv(Start(cfg, uppers))
  {
  }

  function SmallConfig(): Config {
    Config(64, 64, 1, 0, 0, 0, 0, 0, 0, 0, 0, false)
  }

  type State = c: Cache | Inv(c)
    ghost witness (StartInv(SmallConfig(), 0); Start(SmallConfig(), 0))

  // ---------------------------------------------------------------- the steps

  ghost function CheckStep(c: State, u: nat): (r: State)
    requires u < |c.uppers|
    ensures r == CheckUpper(c, u)
  {
    CheckUpperLists(c, u);
    assert forall k :: 0 <= k < |c.ledger| ==> Carried(CheckUpper(c, u), c.ledger[k]) by {
      forall k | 0 <= k < |c.ledger| ensures Carried(CheckUpper(c, u), c.ledger[k]) { CheckUpperCarried(c, u, c.ledger[k]); }
    }
    KeptArray(c, CheckUpper(c, u));
    CheckUpper(c, u)
  }

  // A step that changes neither the array nor the registers.
  lemma {:induction false} KeptArray(c: Cache, r: Cache)
    requires ArrayOk(c) && r.cfg == c.cfg && r.sets == c.sets && r.mshr == c.mshr
    ensures ArrayOk(r)
  {
    BypassArray(c, r);
  }

  // One answer for one request.
  ghost function AnswerStep(c: State, addr: nat): (r: State)
    requires BlockOf(c.cfg, addr) in c.asked
    ensures r == FinishPacket(c, addr)
  {
    AnswerCarried(c, addr);
    FinishPacketMshr(c, addr);
    AnswerKeepsRest(c, addr);
    FinishPacket(c, addr)
  }

  lemma {:induction false} AnswerCarried(c: Cache, addr: nat)
    requires AllCarried(c)
    ensures AllCarried(FinishPacket(c, addr))
  {
    forall k | 0 <= k < |c.ledger| ensures Carried(FinishPacket(c, addr), c.ledger[k]) { FinishPacketCarried(c, addr, c.ledger[k]); }
  }

  lemma {:induction false} AnswerKeepsRest(c: Cache, addr: nat)
    requires ListsOk(c) && WritesOk(c) && ArrayOk(c)
    ensures ListsOk(FinishPacket(c, addr)) && WritesOk(FinishPacket(c, addr)) && ArrayOk(FinishPacket(c, addr))
  {
    var r := FinishPacket(c, addr);
    forall s, w ensures Holds(r, s, w) <==> Holds(c, s, w) {}
    if c.cfg.matchOffset {
      forall i | 0 <= i < |r.mshr| ensures !IsHit(r, r.mshr[i].addr) {
        var m, f := FindEntry(c.mshr, addr, c.cfg.block), FirstUnreturned(c.mshr);
        if m < |c.mshr| && f < |c.mshr| {
          assert !IsHit(c, c.mshr[m].addr) && !IsHit(c, c.mshr[f].addr);
        }
        assert !IsHit(c, c.mshr[i].addr);
      }
    }
  }

  ghost function TranslateStep(c: State, p: Page): (r: State)
    ensures PageBytes(c.cfg) > 0 && r == FinishTranslation(c, p)
  {
    MulMono(0, c.cfg.block, c.cfg.blocksPerPage);
    TranslateCarried(c, p);
    TranslationLists(c, p);
    KeptArray(c, FinishTranslation(c, p));
    FinishTranslation(c, p)
  }

  lemma {:induction false} TranslateCarried(c: Cache, p: Page)
    requires PageBytes(c.cfg) > 0 && AllCarried(c) && ListsOk(c)
    ensures AllCarried(FinishTranslation(c, p))
  {
    forall i | 0 <= i < |c.tags| ensures Plain(c.tags[i]) { assert LookupOk(c.tags[i]); }
    forall i | 0 <= i < |c.stash| ensures Plain(c.stash[i]) { assert LookupOk(c.stash[i]); }
    forall k | 0 <= k < |c.ledger| ensures Carried(FinishTranslation(c, p), c.ledger[k]) {
      FinishTranslationCarried(c, p, c.ledger[k]);
    }
  }

  ghost function FillStep(c: State, write: bool, victim: nat, accepted: bool): (r: State)
    requires victim <= c.cfg.numWay
    ensures r == FillFront(c, write, victim, accepted)
  {
    FillCarried(c, write, victim, accepted);
    FillFrontMshr(c, write, victim, accepted);
    FillFrontArray(c, write, victim, accepted);
    FillLists(c, write, victim, accepted);
    FillFront(c, write, victim, accepted)
  }

  lemma {:induction false} FillLists(c: Cache, write: bool, victim: nat, accepted: bool)
    requires ArrayShape(c) && victim <= c.cfg.numWay && ListsOk(c)
    ensures ListsOk(FillFront(c, write, victim, accepted))
  {
  }

  lemma {:induction false} FillCarried(c: Cache, write: bool, victim: nat, accepted: bool)
    requires ArrayShape(c) && victim <= c.cfg.numWay && AllCarried(c)
    ensures AllCarried(FillFront(c, write, victim, accepted))
  {
    var r := FillFront(c, write, victim, accepted);
    forall k | 0 <= k < |c.ledger| ensures Carried(r, c.ledger[k]) { FillFrontCarried(c, write, victim, accepted, c.ledger[k]); }
  }

  // A step that only moves lookups about.
  ghost function LookupStep(c: State, r: Cache): (r': State)
    requires r == c.(uppers := r.uppers, pq := r.pq, tags := r.tags, stash := r.stash)
    requires ListsOk(r) && AllCarried(r)
    ensures r' == r
  {
    KeptArray(c, r);
    r
  }

  lemma {:induction false} BeginUpperOk(c: Cache, u: nat, s: Source, n: nat)
    requires u < |c.uppers| && ListsOk(c) && AllCarried(c)
    ensures ListsOk(BeginUpper(c, u, s, n)) && AllCarried(BeginUpper(c, u, s, n))
  {
    var r := BeginUpper(c, u, s, n);
    assert QueuesOk(c.uppers[u]) && RequestsOk(UpperQueue(c.uppers[u], s));
    forall k | 0 <= k < |c.ledger| ensures Carried(r, c.ledger[k]) { BeginUpperCarried(c, u, s, n, c.ledger[k]); }
  }

  ghost function BeginStep(c: State, u: nat, s: Source, n: nat): (r: State)
    requires u < |c.uppers|
    ensures r == BeginUpper(c, u, s, n)
  {
    BeginUpperOk(c, u, s, n);
    LookupStep(c, BeginUpper(c, u, s, n))
  }

  lemma {:induction false} BeginStashOk(c: Cache, n: nat)
    requires ListsOk(c) && AllCarried(c)
    ensures ListsOk(BeginStash(c, n)) && AllCarried(BeginStash(c, n))
  {
    forall k | 0 <= k < |c.ledger| ensures Carried(BeginStash(c, n), c.ledger[k]) { BeginStashCarried(c, n, c.ledger[k]); }
  }

  lemma {:induction false} BeginPrefetchOk(c: Cache, n: nat)
    requires ListsOk(c) && AllCarried(c)
    ensures ListsOk(BeginPrefetch(c, n)) && AllCarried(BeginPrefetch(c, n))
  {
    forall k | 0 <= k < |c.ledger| ensures Carried(BeginPrefetch(c, n), c.ledger[k]) { BeginPrefetchCarried(c, n, c.ledger[k]); }
  }

  lemma {:induction false} IssueOk(c: Cache, tagsAccepted: set<nat>, stashAccepted: set<nat>)
    requires ListsOk(c) && AllCarried(c)
    ensures ListsOk(IssueTranslations(c, tagsAccepted, stashAccepted)) && AllCarried(IssueTranslations(c, tagsAccepted, stashAccepted))
  {
    var r := IssueTranslations(c, tagsAccepted, stashAccepted);
    forall k | 0 <= k < |c.ledger| ensures Carried(r, c.ledger[k]) { IssueCarried(c, tagsAccepted, stashAccepted, c.ledger[k]); }
  }

  lemma {:induction false} StashOk(c: Cache)
    requires ListsOk(c) && AllCarried(c)
    ensures ListsOk(StashMissed(c)) && AllCarried(StashMissed(c))
  {
    var missed := (x: Lookup) => x.ready <= c.now && !x.translated;
    FilterOk(c.tags, missed);
    FilterOk(c.tags, Not(missed));
    forall k | 0 <= k < |c.ledger| ensures Carried(StashMissed(c), c.ledger[k]) { StashMissedCarried(c, c.ledger[k]); }
  }

  ghost function BeginStashStep(c: State, n: nat): (r: State)
    ensures r == BeginStash(c, n)
  {
    BeginStashOk(c, n);
    LookupStep(c, BeginStash(c, n))
  }

  ghost function BeginPrefetchStep(c: State, n: nat): (r: State)
    ensures r == BeginPrefetch(c, n)
  {
    BeginPrefetchOk(c, n);
    LookupStep(c, BeginPrefetch(c, n))
  }

  ghost function IssueStep(c: State, tagsAccepted: set<nat>, stashAccepted: set<nat>): (r: State)
    ensures r == IssueTranslations(c, tagsAccepted, stashAccepted)
  {
    IssueOk(c, tagsAccepted, stashAccepted);
    LookupStep(c, IssueTranslations(c, tagsAccepted, stashAccepted))
  }

  ghost function StashStep(c: State): (r: State)
    ensures r == StashMissed(c)
  {
    StashOk(c);
    LookupStep(c, StashMissed(c))
  }

  // --------------------------------------------------------------- tag checks

  lemma {:induction false} HitOk(c: Cache, i: nat)
    requires Inv(c) && i < |c.tags| && IsHit(c, c.tags[i].addr)
    ensures Inv(EraseTag(Hit(c, c.tags[i]), i))
  {
    var r := EraseTag(Hit(c, c.tags[i]), i);
    HitTags(c, c.tags[i]);
    SameTagsArray(c, r);
    forall k | 0 <= k < |c.ledger| ensures Carried(r, c.ledger[k]) { HitCarried(c, i, c.ledger[k]); }
  }

  // Entries n of the tag queue from i on are translated and miss.
  predicate Missing(c: Cache, i: nat, n: nat) {
    ArrayShape(c) && i + n <= |c.tags| && forall k :: i <= k < i + n ==> c.tags[k].translated && !IsHit(c, c.tags[k].addr)
  }

  predicate TranslatedTags(c: Cache, n: nat) {
    n <= |c.tags| && forall k :: 0 <= k < n ==> c.tags[k].translated
  }

  lemma {:induction false} HitKeepsMissing(c: Cache, i: nat, n: nat)
    requires ArrayShape(c) && i < |c.tags| && IsHit(c, c.tags[i].addr) && Missing(c, 0, i) && TranslatedTags(c, i + n) && n > 0
    ensures var r := EraseTag(Hit(c, c.tags[i]), i); Missing(r, 0, i) && TranslatedTags(r, i + n - 1)
  {
    var r := EraseTag(Hit(c, c.tags[i]), i);
    HitTags(c, c.tags[i]);
    assert SameTags(c, r);
    forall k | 0 <= k < i ensures ArrayShape(r) && r.tags[k].translated && !IsHit(r, r.tags[k].addr) {
      SameTagsHit(c, r, c.tags[k].addr);
    }
    SameTagsHit(c, r, 0);
  }

  ghost function HitStep(c: State, i: nat): (r: State)
    requires i < |c.tags| && IsHit(c, c.tags[i].addr)
    ensures r == EraseTag(Hit(c, c.tags[i]), i)
  {
    HitOk(c, i);
    EraseTag(Hit(c, c.tags[i]), i)
  }

  // After the first pass the misses stand in front.
  ghost function HitPassStep(c: State, i: nat, n: nat): (r: (State, nat))
    requires Missing(c, 0, i) && TranslatedTags(c, i + n)
    ensures r == HitPass(c, i, n) && Missing(r.0, 0, r.1)
    decreases n
  {
    if n == 0 then (c, i)
    else if IsHit(c, c.tags[i].addr) then
      HitKeepsMissing(c, i, n);
      HitPassStep(HitStep(c, i), i, n - 1)
    else HitPassStep(c, i + 1, n - 1)
  }

  lemma {:induction false} MissOk(c: Cache, i: nat, accepted: bool)
    requires Inv(c) && i < |c.tags| && c.tags[i].translated && !IsHit(c, c.tags[i].addr)
    ensures var (r, ok) := DoMiss(c, c.tags[i], accepted); Inv(if ok then EraseTag(r, i) else r)
  {
    var x := c.tags[i];
    var (r, ok) := DoMiss(c, x, accepted);
    assert LookupOk(x);
    MissLists(c, x, accepted);
    MissMshr(c, x, accepted);
    MissArray(c, x, accepted);
    MissAllCarried(c, i, accepted);
    if ok { KeptArray(r, EraseTag(r, i)); }
  }

  lemma {:induction false} MissAllCarried(c: Cache, i: nat, accepted: bool)
    requires AllCarried(c) && i < |c.tags| && c.tags[i].translated && LookupOk(c.tags[i])
    ensures var (r, ok) := DoMiss(c, c.tags[i], accepted); AllCarried(if ok then EraseTag(r, i) else r)
  {
    var (r, ok) := DoMiss(c, c.tags[i], accepted);
    var t := if ok then EraseTag(r, i) else r;
    forall k | 0 <= k < |c.ledger| ensures Carried(t, c.ledger[k]) { MissCarried(c, i, accepted, c.ledger[k]); }
  }

  ghost function MissStep(c: State, i: nat, accepted: bool): (r: State)
    requires i < |c.tags| && c.tags[i].translated && !IsHit(c, c.tags[i].addr)
    ensures var (t, ok) := DoMiss(c, c.tags[i], accepted); r == if ok then EraseTag(t, i) else t
  {
    MissOk(c, i, accepted);
    var (t, ok) := DoMiss(c, c.tags[i], accepted);
    if ok then EraseTag(t, i) else t
  }

  lemma {:induction false} MissKeepsMissing(c: Cache, i: nat, n: nat, accepted: bool)
    requires n > 0 && Missing(c, i, n)
    ensures var (r, ok) := DoMiss(c, c.tags[i], accepted);
            if ok then Missing(EraseTag(r, i), i, n - 1) else Missing(r, i + 1, n - 1)
  {
    var (r, ok) := DoMiss(c, c.tags[i], accepted);
    assert SameTags(c, r);
    forall k | i < k < i + n ensures ArrayShape(r) && !IsHit(r, c.tags[k].addr) { SameTagsHit(c, r, c.tags[k].addr); }
    SameTagsHit(c, r, 0);
    if ok {
      var t := EraseTag(r, i);
      assert SameTags(c, t);
      forall k | i <= k < i + n - 1 ensures t.tags[k].translated && !IsHit(t, t.tags[k].addr) {
        assert t.tags[k] == c.tags[k + 1];
        SameTagsHit(c, t, c.tags[k + 1].addr);
      }
    }
  }

  ghost function MissPassStep(c: State, i: nat, n: nat, accepted: seq<bool>): (r: State)
    requires Missing(c, i, n)
    ensures r == MissPass(c, i, n, accepted)
    decreases n
  {
    if n == 0 then c
    else
      var now := accepted != [] && accepted[0];
      var rest := if accepted == [] then [] else accepted[1..];
      MissKeepsMissing(c, i, n, now);
      if DoMiss(c, c.tags[i], now).1 then MissPassStep(MissStep(c, i, now), i, n - 1, rest)
      else MissPassStep(MissStep(c, i, now), i + 1, n - 1, rest)
  }

  ghost function TagCheckStep(c: State, n: nat, accepted: seq<bool>): (r: State)
    ensures r == TagCheck(c, n, accepted)
  {
    var (t, misses) := HitPassStep(c, 0, ReadyTags(c, n));
    MissPassStep(t, 0, misses, accepted)
  }

  // ----------------------------------------------------------------- arrivals

  lemma {:induction false} ArriveCarried(c: Cache, u: nat, s: Source, x: Request)
    requires u < |c.uppers| && AllCarried(c)
    ensures AllCarried(Arrive(c, u, s, x).0)
  {
    var (r, ok) := Arrive(c, u, s, x);
    var q := UpperQueue(c.uppers[u], s);
    forall k | 0 <= k < |r.ledger| ensures Carried(r, r.ledger[k]) {
      if k < |c.ledger| {
        var item := c.ledger[k];
        assert Carried(c, item);
        if ok && InRequests(c.cfg, c.pages, q, item) {
          var i :| 0 <= i < |q| && RequestCarries(c.cfg, c.pages, q[i], item);
          assert (q + [x.(checked := false)])[i] == q[i];
        }
      } else {
        assert RequestCarries(c.cfg, c.pages, (q + [x.(checked := false)])[|q|], r.ledger[k]);
      }
    }
  }

  ghost function ArriveStep(c: State, u: nat, s: Source, x: Request): (r: State)
    requires u < |c.uppers| && RequestOk(x)
    ensures r == Arrive(c, u, s, x).0
  {
    ArriveCarried(c, u, s, x);
    ArriveLists(c, u, s, x);
    KeptArray(c, Arrive(c, u, s, x).0);
    Arrive(c, u, s, x).0
  }

  lemma {:induction false} ArriveLists(c: Cache, u: nat, s: Source, x: Request)
    requires u < |c.uppers| && ListsOk(c) && RequestOk(x)
    ensures ListsOk(Arrive(c, u, s, x).0)
  {
    assert QueuesOk(c.uppers[u]);
  }

  lemma {:induction false} PrefetchOk(c: Cache, addr: nat, fill: bool, isVirtual: bool)
    requires ListsOk(c) && AllCarried(c)
    ensures ListsOk(PrefetchLine(c, addr, fill, isVirtual).0) && AllCarried(PrefetchLine(c, addr, fill, isVirtual).0)
  {
    var r := PrefetchLine(c, addr, fill, isVirtual).0;
    if r != c {
      forall k | 0 <= k < |c.ledger| ensures Carried(r, c.ledger[k]) {
        LookupsAppend(c.cfg, c.pages, c.pq, r.pq[|c.pq|..], c.ledger[k]);
        assert r.pq == c.pq + r.pq[|c.pq|..];
      }
    }
  }

  ghost function PrefetchStep(c: State, addr: nat, fill: bool, isVirtual: bool): (r: State)
    ensures r == PrefetchLine(c, addr, fill, isVirtual).0
  {
    PrefetchOk(c, addr, fill, isVirtual);
    LookupStep(c, PrefetchLine(c, addr, fill, isVirtual).0)
  }

  // Time passes; warmup may end but never starts again.
  ghost function TickStep(c: State, dt: nat, endWarmup: bool): (r: State)
    ensures r == c.(now := c.now + dt, warmup := c.warmup && !endWarmup)
  {
    var r := c.(now := c.now + dt, warmup := c.warmup && !endWarmup);
    KeptArray(c, r);
    TickCarried(c, r);
    r
  }

  lemma {:induction false} TickCarried(c: Cache, r: Cache)
    requires AllCarried(c) && r == c.(now := r.now, warmup := r.warmup)
    ensures AllCarried(r)
  {
    forall k | 0 <= k < |r.ledger| ensures Carried(r, r.ledger[k]) { assert Carried(c, c.ledger[k]); }
  }

  // -------------------------------------------------------------------- runs

  datatype Action =
    | Check(u: nat)
    | Answer(addr: nat)
    | Translate(p: Page)
    | Fill(write: bool, victim: nat, accepted: bool)
    | Begin(u: nat, s: Source, n: nat)
    | BeginStashed(n: nat)
    | BeginPrefetched(n: nat)
    | Issue(tagsAccepted: set<nat>, stashAccepted: set<nat>)
    | Stash
    | Tags(n: nat, acceptedBelow: seq<bool>)
    | Arrival(u: nat, s: Source, x: Request)
    | Prefetching(addr: nat, fill: bool, isVirtual: bool)
    | Tick(dt: nat, endWarmup: bool)

  // The next fill is for a write, which may not bypass the cache.
  predicate FrontWrites(c: Cache, write: bool) {
    var q := if write then c.writes else c.mshr;
    q != [] && q[0].kind.Write?
  }

  // What the rest of the machine promises: one answer for each request that asked
  // for one; a victim inside the set, or none, but not for a write; and requests from above that are
  // at their virtual address until translated, with their dependents in order.
  predicate Allowed(c: Cache, a: Action) {
    match a
    case Check(u) => u < |c.uppers|
    case Answer(addr) => BlockOf(c.cfg, addr) in c.asked
    case Fill(write, victim, accepted) => victim <= c.cfg.numWay && (victim == c.cfg.numWay ==> !FrontWrites(c, write))
    case Begin(u, s, n) => u < |c.uppers|
    case Arrival(u, s, x) => u < |c.uppers| && RequestOk(x)
    case _ => true
  }

  // What is not allowed does not happen.
  ghost function Step(c: State, a: Action): State {
    if !Allowed(c, a) then c
    else
      match a
      case Check(u) => CheckStep(c, u)
      case Answer(addr) => AnswerStep(c, addr)
      case Translate(p) => TranslateStep(c, p)
      case Fill(write, victim, accepted) => FillStep(c, write, victim, accepted)
      case Begin(u, s, n) => BeginStep(c, u, s, n)
      case BeginStashed(n) => BeginStashStep(c, n)
      case BeginPrefetched(n) => BeginPrefetchStep(c, n)
      case Issue(tagsAccepted, stashAccepted) => IssueStep(c, tagsAccepted, stashAccepted)
      case Stash => StashStep(c)
      case Tags(n, acceptedBelow) => TagCheckStep(c, n, acceptedBelow)
      case Arrival(u, s, x) => ArriveStep(c, u, s, x)
      case Prefetching(addr, fill, isVirtual) => PrefetchStep(c, addr, fill, isVirtual)
      case Tick(dt, endWarmup) => TickStep(c, dt, endWarmup)
  }

  ghost function Run(c: State, actions: seq<Action>): State {
    if actions == [] then c else Step(Run(c, actions[..|actions| - 1]), actions[|actions| - 1])
  }

  ghost function Reached(cfg: Config, uppers: nat, actions: seq<Action>): State {
    StartInv(cfg, uppers);
    Run(Start(cfg, uppers), actions)
  }

  // ------------------------------------------------------------- main theorems

  // No accepted request is lost: with all its dependents it is queued, being
  // checked, stashed, waiting for data or a write, or answered.
  lemma {:induction false} NoRequestLost(cfg: Config, uppers: nat, actions: seq<Action>, k: nat)
    requires k < |Reached(cfg, uppers, actions).ledger|
    ensures var c := Reached(cfg, uppers, actions); Carried(c, c.ledger[k])
  {
    var c := Reached(cfg, uppers, actions);
    assert AllCarried(c);
  }

  // Miss registers name distinct blocks and are never too many; those with data
  // come first and in order of readiness, so that no entry that is due waits
  // behind one that is not.
  lemma {:induction false} MshrDiscipline(cfg: Config, uppers: nat, actions: seq<Action>, i: nat, j: nat)
    requires i < j < |Reached(cfg, uppers, actions).mshr|
    ensures var c := Reached(cfg, uppers, actions);
            && !Same(c.mshr[i].addr, c.mshr[j].addr, c.cfg.block)
            && |c.mshr| <= c.cfg.mshrSize
            && (c.mshr[j].promise.Some? ==> c.mshr[i].promise.Some? && c.mshr[i].promise.value <= c.mshr[j].promise.value)
            && (DueAt(c.mshr[j], c.now) ==> DueAt(c.mshr[i], c.now))
  {
    RegistersInOrder(Reached(cfg, uppers, actions), i, j);
  }

  lemma {:induction false} RegistersInOrder(c: Cache, i: nat, j: nat)
    requires MshrOk(c) && i < j < |c.mshr|
    ensures !Same(c.mshr[i].addr, c.mshr[j].addr, c.cfg.block) && |c.mshr| <= c.cfg.mshrSize
    ensures c.mshr[j].promise.Some? ==> c.mshr[i].promise.Some? && c.mshr[i].promise.value <= c.mshr[j].promise.value
    ensures DueAt(c.mshr[j], c.now) ==> DueAt(c.mshr[i], c.now)
  {
  }

  // The block an answer is for always has a register of its own that waits.
  lemma {:induction false} AnswersAreExpected(cfg: Config, uppers: nat, actions: seq<Action>, addr: nat)
    ensures var c := Reached(cfg, uppers, actions);
            BlockOf(c.cfg, addr) in c.asked <==>
              (var m := FindEntry(c.mshr, addr, c.cfg.block); m < |c.mshr| && c.mshr[m].promise.None?)
  {
    AskedMeansWaiting(Reached(cfg, uppers, actions), addr);
  }

  lemma {:induction false} AskedMeansWaiting(c: Cache, addr: nat)
    requires MshrOk(c)
    ensures BlockOf(c.cfg, addr) in c.asked <==>
              (var m := FindEntry(c.mshr, addr, c.cfg.block); m < |c.mshr| && c.mshr[m].promise.None?)
  {
    var m := FindEntry(c.mshr, addr, c.cfg.block);
    if BlockOf(c.cfg, addr) in c.asked {
      AnswerFinds(c, addr);
    } else if m < |c.mshr| && c.mshr[m].promise.None? {
      UnreturnedMulti(c.cfg, c.mshr);
      PendingAt(c.cfg, c.mshr, m);
    }
  }

  lemma {:induction false} PendingAt(cfg: Config, q: seq<Entry>, i: nat)
    requires i < |q| && q[i].promise.None?
    ensures Pending(cfg, q, BlockOf(cfg, q[i].addr)) > 0
  {
    if i < |q| - 1 { PendingAt(cfg, q[..|q| - 1], i); }
  }

  // A cache that takes no writebacks never holds a block in two ways, nor a
  // block that it is waiting for.
  lemma {:induction false} NoBlockTwice(cfg: Config, uppers: nat, actions: seq<Action>, s: int, v: int, w: int, i: nat)
    requires cfg.matchOffset
    ensures var c := Reached(cfg, uppers, actions);
            && (Holds(c, s, v) && Holds(c, s, w) && v != w ==> !Same(c.sets[s][v].addr, c.sets[s][w].addr, cfg.block))
            && (Holds(c, s, v) && i < |c.mshr| ==> !Same(c.sets[s][v].addr, c.mshr[i].addr, cfg.block))
  {
    SameConfig(cfg, uppers, actions);
    NotTwice(Reached(cfg, uppers, actions), s, v, w, i);
  }

  lemma {:induction false} NotTwice(c: Cache, s: int, v: int, w: int, i: nat)
    requires ArrayOk(c) && c.cfg.matchOffset
    ensures Holds(c, s, v) && Holds(c, s, w) && v != w ==> !Same(c.sets[s][v].addr, c.sets[s][w].addr, c.cfg.block)
    ensures Holds(c, s, v) && i < |c.mshr| ==> !Same(c.sets[s][v].addr, c.mshr[i].addr, c.cfg.block)
  {
    if Holds(c, s, v) && i < |c.mshr| { HitMeans(c, c.mshr[i].addr); }
  }

  lemma {:induction false} HitPassConfig(c: Cache, i: nat, n: nat)
    requires ArrayShape(c) && i + n <= |c.tags|
    ensures var r := HitPass(c, i, n).0; r.cfg == c.cfg && r.pages == c.pages
    decreases n
  {
    if n > 0 {
      if IsHit(c, c.tags[i].addr) {
        HitPassConfig(EraseTag(Hit(c, c.tags[i]), i), i, n - 1);
      } else {
        HitPassConfig(c, i + 1, n - 1);
      }
    }
  }

  // A miss moves no lookup and fills no way.
  lemma {:induction false} MissKeeps(c: Cache, x: Lookup, accepted: bool)
    ensures var r := DoMiss(c, x, accepted).0; r.tags == c.tags && r.sets == c.sets && r.cfg == c.cfg && r.pages == c.pages
  {
  }

  lemma {:induction false} MissPassConfig(c: Cache, i: nat, n: nat, accepted: seq<bool>)
    requires i + n <= |c.tags|
    ensures var r := MissPass(c, i, n, accepted); r.cfg == c.cfg && r.pages == c.pages
    decreases n
  {
    hide DoMiss;
    if n > 0 {
      MissKeeps(c, c.tags[i], accepted != [] && accepted[0]);
      var (r, ok) := DoMiss(c, c.tags[i], accepted != [] && accepted[0]);
      var rest := if accepted == [] then [] else accepted[1..];
      if ok { MissPassConfig(EraseTag(r, i), i, n - 1, rest); } else { MissPassConfig(r, i + 1, n - 1, rest); }
    }
  }

  lemma {:induction false} StepConfig(c: State, a: Action)
    ensures Step(c, a).cfg == c.cfg && c.pages <= Step(c, a).pages
  {
    if a.Tags? {
      var k := ReadyTags(c, a.n);
      HitPassConfig(c, 0, k);
      var (t, misses) := HitPass(c, 0, k);
      MissPassConfig(t, 0, misses, a.acceptedBelow);
    }
  }

  lemma {:induction false} SameConfig(cfg: Config, uppers: nat, actions: seq<Action>)
    ensures Reached(cfg, uppers, actions).cfg == cfg
  {
    if actions != [] {
      SameConfig(cfg, uppers, actions[..|actions| - 1]);
      StepConfig(Reached(cfg, uppers, actions[..|actions| - 1]), actions[|actions| - 1]);
    }
  }
}
