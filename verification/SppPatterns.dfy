// The pattern table of the signature path prefetcher
// (champsim/prefetcher/spp_dev/spp_dev.cc, class PATTERN_TABLE): four counted
// deltas for each set, and one counter of the set's updates.
module SppPatterns {
  import opened Prelude

  const PT_SET: nat := 512
  const PT_WAY: nat := 4
  const C_SIG_MAX: nat := 15
  const PF_THRESHOLD: nat := 25

  datatype PatternSet = PatternSet(delta: seq<int>, cDelta: seq<nat>, cSig: nat)

  const Fresh: PatternSet := PatternSet(seq(PT_WAY, _ => 0), seq(PT_WAY, _ => 0), 0)

  // ------------------------------------------------------------------- update

  function FirstWay(delta: seq<int>, d: int): (way: nat)
    ensures way <= |delta| && (forall i :: 0 <= i < way ==> delta[i] != d)
    ensures way < |delta| ==> delta[way] == d
  {
    if delta == [] || delta[0] == d then 0 else 1 + FirstWay(delta[1..], d)
  }

  lemma {:induction false} FirstWayIs(delta: seq<int>, d: int, way: nat)
    requires way <= |delta| && (forall i :: 0 <= i < way ==> delta[i] != d)
    requires way < |delta| ==> delta[way] == d
    ensures way == FirstWay(delta, d)
  {
  }

  // The scan for a victim over the first n ways: the last way below every
  // counter before it, starting from min_counter = C_SIG_MAX.
  function Scan(cDelta: seq<nat>, n: nat): (r: (nat, nat))
    requires n <= |cDelta| <= PT_WAY
  {
    if n == 0 then (PT_WAY, C_SIG_MAX)
    else
      var (victim, min) := Scan(cDelta, n - 1);
      if cDelta[n - 1] < min then (n - 1, cDelta[n - 1]) else (victim, min)
  }

  function Halved(c: seq<nat>): (r: seq<nat>)
    ensures |r| == |c| && forall i :: 0 <= i < |c| ==> r[i] == c[i] / 2
  {
    seq(|c|, i requires 0 <= i < |c| => c[i] / 2)
  }

  function Aged(s: PatternSet): PatternSet {
    if s.cSig > C_SIG_MAX then s.(cDelta := Halved(s.cDelta), cSig := s.cSig / 2) else s
  }

  predicate Shape(s: PatternSet) {
    |s.delta| == |s.cDelta| == PT_WAY
  }

  // With no victim the source asserts.
  function Updated(s: PatternSet, d: int): Option<PatternSet>
    requires Shape(s)
  {
    var hit := FirstWay(s.delta, d);
    if hit < PT_WAY then
      Some(Aged(s.(cDelta := s.cDelta[hit := s.cDelta[hit] + 1], cSig := s.cSig + 1)))
    else
      var victim := Scan(s.cDelta, PT_WAY).0;
      if victim >= PT_WAY then None
      else Some(Aged(s.(delta := s.delta[victim := d], cDelta := s.cDelta[victim := 0], cSig := s.cSig + 1)))
  }

  // ---------------------------------------------------------------- invariant

  // The counters of a set share its updates, and a delta has one live counter.
  predicate CountsOk(s: PatternSet) {
    && Shape(s)
    && Sum(s.cDelta) <= s.cSig <= C_SIG_MAX
    && forall i, j :: 0 <= i < j < PT_WAY && s.delta[i] == s.delta[j] ==> s.delta[j] == 0 && s.cDelta[j] == 0
  }

  lemma {:induction false} SumUpdate(s: seq<nat>, i: nat, v: nat)
    requires i < |s|
    ensures Sum(s[i := v]) == Sum(s) - s[i] + v
  {
    if i > 0 {
      assert s[i := v][1..] == s[1..][i - 1 := v];
      SumUpdate(s[1..], i - 1, v);
    }
  }

  lemma {:induction false} SumHalved(s: seq<nat>)
    ensures 2 * Sum(Halved(s)) <= Sum(s)
  {
    if s != [] {
      assert Halved(s)[1..] == Halved(s[1..]);
      SumHalved(s[1..]);
    }
  }

  lemma {:induction false} EachBelowSum(s: seq<nat>, i: nat)
    requires i < |s|
    ensures s[i] <= Sum(s)
  {
    if i > 0 { EachBelowSum(s[1..], i - 1); }
  }

  // The scan finds the first of the smallest counters that are below C_SIG_MAX.
  lemma {:induction false} ScanIsFirstMinimum(c: seq<nat>, n: nat)
    requires n <= |c| <= PT_WAY
    ensures var (victim, min) := Scan(c, n);
            && ((victim == PT_WAY && min == C_SIG_MAX && (forall i :: 0 <= i < n ==> c[i] >= C_SIG_MAX))
                || (victim < n && c[victim] == min < C_SIG_MAX
                    && (forall i :: 0 <= i < n ==> c[i] >= min) && (forall i :: 0 <= i < victim ==> c[i] > min)))
  {
    if n > 0 { ScanIsFirstMinimum(c, n - 1); }
  }

  lemma {:induction false} AgedOk(s: PatternSet)
    requires Shape(s) && Sum(s.cDelta) <= s.cSig <= C_SIG_MAX + 1
    requires forall i, j :: 0 <= i < j < PT_WAY && s.delta[i] == s.delta[j] ==> s.delta[j] == 0 && s.cDelta[j] == 0
    ensures CountsOk(Aged(s))
  {
    SumHalved(s.cDelta);
  }

  // An update finds a victim when it needs one, and keeps the counters in step.
  lemma {:induction false} UpdateKeepsCounts(s: PatternSet, d: int)
    requires CountsOk(s)
    ensures Updated(s, d).Some? && CountsOk(Updated(s, d).value)
  {
    hide Aged, Sum;
    var hit := FirstWay(s.delta, d);
    if hit < PT_WAY {
      SumUpdate(s.cDelta, hit, s.cDelta[hit] + 1);
      AgedOk(s.(cDelta := s.cDelta[hit := s.cDelta[hit] + 1], cSig := s.cSig + 1));
    } else {
      ScanIsFirstMinimum(s.cDelta, PT_WAY);
      assert Scan(s.cDelta, PT_WAY).0 < PT_WAY by { SomeBelowMax(s.cDelta); }
      var victim := Scan(s.cDelta, PT_WAY).0;
      SumUpdate(s.cDelta, victim, 0);
      AgedOk(s.(delta := s.delta[victim := d], cDelta := s.cDelta[victim := 0], cSig := s.cSig + 1));
    }
  }

  lemma {:induction false} SomeBelowMax(c: seq<nat>)
    requires |c| == PT_WAY && Sum(c) <= C_SIG_MAX
    ensures c[0] < C_SIG_MAX || c[1] < C_SIG_MAX
  {
    assert Sum(c) == c[0] + Sum(c[1..]);
    assert Sum(c[1..]) == c[1] + Sum(c[1..][1..]);
  }

  // A counter once the update counted for way k, before the set ages.
  function Counted(s: PatternSet, d: int, k: nat, way: nat): nat
    requires Shape(s) && way < PT_WAY
  {
    if way != k then s.cDelta[way] else if d in s.delta then s.cDelta[way] + 1 else 0
  }

  // An update counts for one way: the first with the delta, whose counter goes up
  // by one, or else the first least counted, which takes the delta and starts
  // again. The update that overflows the counter of the set halves them all.
  lemma {:induction false} UpdateCountsOne(s: PatternSet, d: int) returns (k: nat)
    requires CountsOk(s)
    ensures k < PT_WAY
    ensures if d in s.delta then s.delta[k] == d && forall i :: 0 <= i < k ==> s.delta[i] != d
            else
              && (forall i :: 0 <= i < PT_WAY ==> s.cDelta[i] >= s.cDelta[k])
              && (forall i :: 0 <= i < k ==> s.cDelta[i] > s.cDelta[k])
    ensures Updated(s, d).Some? && Shape(Updated(s, d).value)
    ensures var r := Updated(s, d).value;
            && r.delta == s.delta[k := d]
            && r.cSig == (if s.cSig == C_SIG_MAX then (C_SIG_MAX + 1) / 2 else s.cSig + 1)
            && (forall way :: 0 <= way < PT_WAY ==>
                  r.cDelta[way] == if s.cSig == C_SIG_MAX then Counted(s, d, k, way) / 2 else Counted(s, d, k, way))
  {
    UpdateKeepsCounts(s, d);
    ScanIsFirstMinimum(s.cDelta, PT_WAY);
    k := if d in s.delta then FirstWay(s.delta, d) else Scan(s.cDelta, PT_WAY).0;
    if d in s.delta {
      assert s.delta[k := d] == s.delta;
    } else {
      assert FirstWay(s.delta, d) == PT_WAY;
    }
  }

  // -------------------------------------------------------------------- runs

  function Trained(s: PatternSet, ds: seq<int>): Option<PatternSet>
    requires Shape(s)
    decreases |ds|
  {
    if ds == [] then Some(s)
    else
      var r := Updated(s, ds[0]);
      if r.None? then None else Trained(r.value, ds[1..])
  }

  lemma {:induction false} TrainedFrom(s: PatternSet, ds: seq<int>)
    requires CountsOk(s)
    ensures Trained(s, ds).Some? && CountsOk(Trained(s, ds).value)
    decreases |ds|
  {
    if ds != [] {
      UpdateKeepsCounts(s, ds[0]);
      TrainedFrom(Updated(s, ds[0]).value, ds[1..]);
    }
  }

  lemma {:induction false} TrainedSnoc(s: PatternSet, ds: seq<int>)
    requires CountsOk(s) && ds != []
    ensures var n := |ds| - 1;
            Trained(s, ds[..n]).Some? && CountsOk(Trained(s, ds[..n]).value)
            && Trained(s, ds) == Updated(Trained(s, ds[..n]).value, ds[n])
    decreases |ds|
  {
    var n := |ds| - 1;
    UpdateKeepsCounts(s, ds[0]);
    TrainedFrom(s, ds[..n]);
    if n == 0 {
      assert ds[1..] == [];
    } else {
      var r := Updated(s, ds[0]).value;
      TrainedSnoc(r, ds[1..]);
      assert ds[1..][..n - 1] == ds[..n][1..];
      assert Trained(s, ds[..n]) == Trained(r, ds[..n][1..]);
    }
  }

  // The counter of a set counts its updates, and halves its count on each
  // overflow: from then on it goes round between 8 and 15.
  lemma {:induction false} UpdatesAreCounted(ds: seq<int>)
    ensures Trained(Fresh, ds).Some?
    ensures Trained(Fresh, ds).value.cSig == if |ds| <= C_SIG_MAX then |ds| else 8 + |ds| % 8
  {
    FreshCounts();
    TrainedFrom(Fresh, ds);
    if ds != [] {
      var n := |ds| - 1;
      UpdatesAreCounted(ds[..n]);
      TrainedSnoc(Fresh, ds);
      var k := UpdateCountsOne(Trained(Fresh, ds[..n]).value, ds[n]);
    }
  }

  lemma {:induction false} FreshCounts()
    ensures CountsOk(Fresh)
  {
    assert Fresh.cDelta == [0, 0, 0, 0];
    FourTerms([0, 0, 0, 0]);
  }

  // How deep the lookahead is, the accuracy of earlier prefetches in percent, and
  // the confidence of the path so far.
  datatype Path = Path(depth: nat, accuracy: nat, confidence: nat)

  const Root: Path := Path(0, 0, 100)

  // The confidence of a way, in percent.
  function Confidence(s: PatternSet, path: Path, way: nat): nat
    requires Shape(s) && s.cSig > 0 && way < PT_WAY
  {
    if path.depth == 0 then 100 * s.cDelta[way] / s.cSig
    else path.accuracy * s.cDelta[way] / s.cSig * path.confidence / 100
  }

  // What all ways may claim together: certainty, or the confidence of the path
  // scaled by the accuracy.
  function Budget(path: Path): nat {
    if path.depth == 0 then 100 else path.accuracy * path.confidence / 100
  }

  // After any updates of a fresh set, no assertion having failed, the
  // confidences of its four ways add up to at most 100.
  lemma {:induction false} ConfidencesShareHundred(ds: seq<int>)
    ensures Trained(Fresh, ds).Some? && CountsOk(Trained(Fresh, ds).value)
    ensures var s := Trained(Fresh, ds).value; s.cSig > 0 ==>
              Confidence(s, Root, 0) + Confidence(s, Root, 1) + Confidence(s, Root, 2) + Confidence(s, Root, 3) <= 100
  {
    assert Sum([0, 0, 0, 0]) == 0 by { FourTerms([0, 0, 0, 0]); }
    assert Fresh.cDelta == [0, 0, 0, 0];
    TrainedFrom(Fresh, ds);
    var s := Trained(Fresh, ds).value;
    if s.cSig > 0 { SharesOfBudget(s, Root); }
  }

  lemma {:induction false} FourTerms(c: seq<nat>)
    requires |c| == 4
    ensures Sum(c) == c[0] + c[1] + c[2] + c[3]
  {
    assert Sum(c) == c[0] + Sum(c[1..]);
    assert Sum(c[1..]) == c[1] + Sum(c[1..][1..]);
    assert Sum(c[1..][1..]) == c[2] + Sum(c[1..][1..][1..]);
    assert Sum(c[1..][1..][1..]) == c[3];
  }

  lemma {:induction false} QuotientSum(p: nat, q: nat, n: nat)
    requires n > 0
    ensures p / n + q / n <= (p + q) / n
  {
    var x, y, z := p / n, q / n, (p + q) / n;
    DivMod(p, n);
    DivMod(q, n);
    DivMod(p + q, n);
    assert (x + y) * n == x * n + y * n;
    if x + y > z { MulMono(z, x + y, n); }
  }

  lemma {:induction false} QuotientMono(p: nat, q: nat, n: nat)
    requires n > 0 && p <= q
    ensures p / n <= q / n
  {
    var x, z := p / n, q / n;
    DivMod(p, n);
    DivMod(q, n);
    if x > z { MulMono(z, x, n); }
  }

  // The part of k that goes to a of n.
  function Share(k: nat, a: nat, n: nat): nat
    requires n > 0
  {
    k * a / n
  }

  lemma {:induction false} ShareSum(k: nat, a: nat, b: nat, n: nat)
    requires n > 0
    ensures Share(k, a, n) + Share(k, b, n) <= Share(k, a + b, n)
  {
    QuotientSum(k * a, k * b, n);
    assert k * (a + b) == k * a + k * b;
  }

  lemma {:induction false} ShareMono(k: nat, a: nat, m: nat, n: nat)
    requires n > 0 && a <= m
    ensures Share(k, a, n) <= Share(k, m, n)
  {
    assert k * a <= k * m by { if a < m { MulMono(a, m, k); } }
    QuotientMono(k * a, k * m, n);
  }

  lemma {:induction false} ShareWhole(k: nat, n: nat)
    requires n > 0
    ensures Share(k, n, n) == k
  {
    DivUnique(k * n, n, k, 0);
  }

  // Rounding down never makes the shares add up to more than the whole.
  lemma {:induction false} Shares(k: nat, c: seq<nat>, n: nat, m: nat)
    requires n > 0 && |c| == 4 && c[0] + c[1] + c[2] + c[3] <= m
    ensures Share(k, c[0], n) + Share(k, c[1], n) + Share(k, c[2], n) + Share(k, c[3], n) <= Share(k, m, n)
  {
    hide Share;
    ShareSum(k, c[0], c[1], n);
    ShareSum(k, c[0] + c[1], c[2], n);
    ShareSum(k, c[0] + c[1] + c[2], c[3], n);
    ShareMono(k, c[0] + c[1] + c[2] + c[3], m, n);
  }

  lemma {:induction false} ConfidenceIs(s: PatternSet, path: Path, way: nat)
    requires Shape(s) && s.cSig > 0 && way < PT_WAY
    ensures path.depth == 0 ==> Confidence(s, path, way) == Share(100, s.cDelta[way], s.cSig)
    ensures path.depth > 0 ==>
              Confidence(s, path, way) == Share(path.confidence, Share(path.accuracy, s.cDelta[way], s.cSig), 100)
  {
    var x := Share(path.accuracy, s.cDelta[way], s.cSig);
    assert x * path.confidence == path.confidence * x;
  }

  lemma {:induction false} BudgetIs(path: Path)
    ensures Budget(path) == if path.depth == 0 then 100 else Share(path.confidence, path.accuracy, 100)
  {
    assert path.accuracy * path.confidence == path.confidence * path.accuracy;
  }

  lemma {:induction false} SharesOfBudget(s: PatternSet, path: Path)
    requires CountsOk(s) && s.cSig > 0
    ensures Confidence(s, path, 0) + Confidence(s, path, 1) + Confidence(s, path, 2) + Confidence(s, path, 3) <= Budget(path)
  {
    hide Share, Confidence, Budget;
    var k, c := if path.depth == 0 then 100 else path.accuracy, s.cDelta;
    FourTerms(c);
    Shares(k, c, s.cSig, s.cSig);
    ShareWhole(k, s.cSig);
    BudgetIs(path);
    ConfidenceIs(s, path, 0);
    ConfidenceIs(s, path, 1);
    ConfidenceIs(s, path, 2);
    ConfidenceIs(s, path, 3);
    if path.depth > 0 {
      Shares(path.confidence,
             [Share(k, c[0], s.cSig), Share(k, c[1], s.cSig), Share(k, c[2], s.cSig), Share(k, c[3], s.cSig)], 100, k);
    }
  }

  // --------------------------------------------------------------------- read

  // The deltas whose confidence reaches the threshold, in the order of the ways.
  function Candidates(s: PatternSet, path: Path, n: nat): (r: seq<(int, nat)>)
    requires Shape(s) && s.cSig > 0 && n <= PT_WAY
    ensures |r| <= n
  {
    if n == 0 then []
    else
      var conf := Confidence(s, path, n - 1);
      Candidates(s, path, n - 1) + if conf >= PF_THRESHOLD then [(s.delta[n - 1], conf)] else []
  }

  // The scan for the way to follow, over the first n ways.
  function Lookahead(s: PatternSet, path: Path, n: nat): (nat, nat)
    requires Shape(s) && s.cSig > 0 && n <= PT_WAY
  {
    if n == 0 then (PT_WAY, 0)
    else
      var (way, max) := Lookahead(s, path, n - 1);
      var conf := Confidence(s, path, n - 1);
      if conf >= PF_THRESHOLD && conf > max then (n - 1, conf) else (way, max)
  }

  // It is the first way with the greatest confidence, if that is a candidate.
  lemma {:induction false} LookaheadIsFirstMaximum(s: PatternSet, path: Path, n: nat)
    requires Shape(s) && s.cSig > 0 && n <= PT_WAY
    ensures var (way, max) := Lookahead(s, path, n);
            if forall i :: 0 <= i < n ==> Confidence(s, path, i) < PF_THRESHOLD then way == PT_WAY && max == 0
            else
              && way < n && max == Confidence(s, path, way) >= PF_THRESHOLD
              && (forall i :: 0 <= i < n ==> Confidence(s, path, i) <= max)
              && (forall i :: 0 <= i < way ==> Confidence(s, path, i) < max)
  {
    if n > 0 { LookaheadIsFirstMaximum(s, path, n - 1); }
  }

  // What is proposed never claims more in total than certainty at depth 0, and
  // deeper no more than the confidence of the path scaled by the accuracy.
  lemma {:induction false} CandidatesShareBudget(s: PatternSet, path: Path)
    requires CountsOk(s) && s.cSig > 0
    ensures Sum(Confidences(Candidates(s, path, PT_WAY))) <= Budget(path)
    ensures Plausible(Candidates(s, path, PT_WAY), Budget(path))
  {
    SharesOfBudget(s, path);
    CandidatesAtMost(s, path, 1);
    CandidatesAtMost(s, path, 2);
    CandidatesAtMost(s, path, 3);
    CandidatesAtMost(s, path, 4);
  }

  // Each way at or above the threshold is proposed, with its delta and confidence,
  // in the order of the ways, and no other.
  lemma {:induction false} CandidatesAreAll(s: PatternSet, path: Path, way: nat)
    requires Shape(s) && s.cSig > 0 && way < PT_WAY
    ensures var c := Candidates(s, path, PT_WAY);
            var before := |Candidates(s, path, way)|;
            if Confidence(s, path, way) >= PF_THRESHOLD then
              before < |c| && c[before] == (s.delta[way], Confidence(s, path, way)) && before + 1 == |Candidates(s, path, way + 1)|
            else before == |Candidates(s, path, way + 1)|
    ensures Candidates(s, path, 0) == []
  {
    CandidatesGrow(s, path, way + 1, PT_WAY);
  }

  lemma {:induction false} CandidatesGrow(s: PatternSet, path: Path, n: nat, m: nat)
    requires Shape(s) && s.cSig > 0 && n <= m <= PT_WAY
    ensures Candidates(s, path, n) <= Candidates(s, path, m)
    decreases m - n
  {
    if n < m { CandidatesGrow(s, path, n, m - 1); }
  }

  // The confidence of a way is its share of the set's updates, in percent, rounded
  // down; deeper, the accuracy's part of it, rounded down, in percent of the path's.
  lemma {:induction false} ConfidenceIsShare(s: PatternSet, path: Path, way: nat)
    requires Shape(s) && s.cSig > 0 && way < PT_WAY
    ensures var conf, c := Confidence(s, path, way), s.cDelta[way];
            if path.depth == 0 then conf * s.cSig <= 100 * c < (conf + 1) * s.cSig
            else exists part: nat :: part * s.cSig <= path.accuracy * c < (part + 1) * s.cSig
                                     && conf * 100 <= part * path.confidence < (conf + 1) * 100
  {
    var k := if path.depth == 0 then 100 else path.accuracy;
    var product: nat := k * s.cDelta[way];
    FloorOf(product, s.cSig);
    if path.depth > 0 {
      var part: nat := product / s.cSig;
      FloorOf(part * path.confidence, 100);
    }
  }

  predicate Plausible(c: seq<(int, nat)>, budget: nat) {
    forall i :: 0 <= i < |c| ==> PF_THRESHOLD <= c[i].1 <= budget
  }

  function Confidences(c: seq<(int, nat)>): (r: seq<nat>)
    ensures |r| == |c| && forall i :: 0 <= i < |c| ==> r[i] == c[i].1
  {
    seq(|c|, i requires 0 <= i < |c| => c[i].1)
  }

  lemma {:induction false} CandidatesAtMost(s: PatternSet, path: Path, n: nat)
    requires Shape(s) && s.cSig > 0 && 0 < n <= PT_WAY
    ensures Sum(Confidences(Candidates(s, path, n))) <= Sum(Confidences(Candidates(s, path, n - 1))) + Confidence(s, path, n - 1)
    ensures Plausible(Candidates(s, path, n - 1), Budget(path)) && Confidence(s, path, n - 1) <= Budget(path) ==>
              Plausible(Candidates(s, path, n), Budget(path))
  {
    var conf := Confidence(s, path, n - 1);
    if conf >= PF_THRESHOLD {
      assert Confidences(Candidates(s, path, n)) == Confidences(Candidates(s, path, n - 1)) + [conf];
      SumSnoc(Confidences(Candidates(s, path, n - 1)), conf);
    } else {
      assert Candidates(s, path, n) == Candidates(s, path, n - 1);
    }
  }

  // The path to follow is never more confident than the one that led here: with
  // an accuracy of at most 100 percent lookahead confidence only falls.
  lemma {:induction false} LookaheadFalls(s: PatternSet, path: Path)
    requires CountsOk(s) && s.cSig > 0 && path.accuracy <= 100 && (path.depth == 0 ==> path.confidence == 100)
    ensures Lookahead(s, path, PT_WAY).1 <= path.confidence
  {
    hide Share, Confidence, Budget;
    SharesOfBudget(s, path);
    LookaheadIsFirstMaximum(s, path, PT_WAY);
    BudgetIs(path);
    if path.depth > 0 {
      ShareMono(path.confidence, path.accuracy, 100, 100);
      ShareWhole(path.confidence, 100);
    }
  }

  // -------------------------------------------------------------- the component

  class PatternTable {
    const delta: array2<int>
    const cDelta: array2<nat>
    const cSig: array<nat>

    ghost predicate Sized() {
      && delta.Length0 == cDelta.Length0 == cSig.Length == PT_SET
      && delta.Length1 == cDelta.Length1 == PT_WAY
    }

    ghost function Row(index: nat): (s: PatternSet)
      requires Sized() && index < PT_SET
      reads delta, cDelta, cSig
      ensures Shape(s)
    {
      PatternSet(seq(PT_WAY, way requires 0 <= way < PT_WAY && Sized() reads delta => delta[index, way]),
                 seq(PT_WAY, way requires 0 <= way < PT_WAY && Sized() reads cDelta => cDelta[index, way]),
                 cSig[index])
    }

    ghost predicate Valid()
      reads delta, cDelta, cSig
    {
      Sized() && forall index :: 0 <= index < PT_SET ==> CountsOk(Row(index))
    }

    constructor ()
      ensures Valid() && forall index :: 0 <= index < PT_SET ==> Row(index) == Fresh
      ensures fresh(delta) && fresh(cDelta) && fresh(cSig)
    {
      delta := new int[PT_SET, PT_WAY]((_, _) => 0);
      cDelta := new nat[PT_SET, PT_WAY]((_, _) => 0);
      cSig := new nat[PT_SET](_ => 0);
      new;
      hide Sum, CountsOk;
      FreshCounts();
      forall index | 0 <= index < PT_SET ensures Row(index) == Fresh { }
    }

    // Both branches of an update end by halving a set whose counter overflowed.
    method Age(index: nat)
      requires Sized() && index < PT_SET
      modifies cDelta, cSig
      ensures Row(index) == Aged(old(Row(index)))
      ensures forall other :: 0 <= other < PT_SET && other != index ==> Row(other) == old(Row(other))
    {
      if cSig[index] > C_SIG_MAX {
        for way := 0 to PT_WAY
          invariant forall w :: 0 <= w < way ==> cDelta[index, w] == old(cDelta[index, w]) / 2
          invariant forall w :: way <= w < PT_WAY ==> cDelta[index, w] == old(cDelta[index, w])
          invariant forall s, w :: 0 <= s < PT_SET && s != index && 0 <= w < PT_WAY ==> cDelta[s, w] == old(cDelta[s, w])
          invariant cSig[..] == old(cSig[..])
        {
          cDelta[index, way] := cDelta[index, way] / 2;
        }
        cSig[index] := cSig[index] / 2;
      }
    }

    method FindVictim(index: nat) returns (victim: nat)
      requires Sized() && index < PT_SET
      ensures victim == Scan(Row(index).cDelta, PT_WAY).0
    {
      var minCounter := C_SIG_MAX;
      victim := PT_WAY;
      for hit := 0 to PT_WAY
        invariant (victim, minCounter) == Scan(Row(index).cDelta, hit)
      {
        if cDelta[index, hit] < minCounter {
          victim, minCounter := hit, cDelta[index, hit];
        }
      }
    }

    method FindDelta(index: nat, d: int) returns (hit: nat)
      requires Sized() && index < PT_SET
      ensures hit == FirstWay(Row(index).delta, d)
    {
      hit := 0;
      while hit < PT_WAY && delta[index, hit] != d
        invariant hit <= PT_WAY && forall i :: 0 <= i < hit ==> Row(index).delta[i] != d
      {
        hit := hit + 1;
      }
      FirstWayIs(Row(index).delta, d, hit);
    }

    method Count(index: nat, hit: nat)
      requires Sized() && index < PT_SET && hit < PT_WAY
      modifies cDelta, cSig
      ensures var s := old(Row(index));
              Row(index) == s.(cDelta := s.cDelta[hit := s.cDelta[hit] + 1], cSig := s.cSig + 1)
      ensures forall other :: 0 <= other < PT_SET && other != index ==> Row(other) == old(Row(other))
    {
      cDelta[index, hit] := cDelta[index, hit] + 1;
      cSig[index] := cSig[index] + 1;
    }

    method Replace(index: nat, victim: nat, d: int)
      requires Sized() && index < PT_SET && victim < PT_WAY
      modifies delta, cDelta, cSig
      ensures var s := old(Row(index));
              Row(index) == s.(delta := s.delta[victim := d], cDelta := s.cDelta[victim := 0], cSig := s.cSig + 1)
      ensures forall other :: 0 <= other < PT_SET && other != index ==> Row(other) == old(Row(other))
    {
      delta[index, victim] := d;
      cDelta[index, victim] := 0;
      cSig[index] := cSig[index] + 1;
    }

    method UpdatePattern(index: nat, currDelta: int)
      requires Valid() && index < PT_SET
      modifies delta, cDelta, cSig
      ensures Valid() && Some(Row(index)) == Updated(old(Row(index)), currDelta)
      ensures forall other :: 0 <= other < PT_SET && other != index ==> Row(other) == old(Row(other))
    {
      hide CountsOk, Aged, Scan, Sum;
      UpdateKeepsCounts(Row(index), currDelta);
      var hit := FindDelta(index, currDelta);
      if hit < PT_WAY {
        Count(index, hit);
      } else {
        var victim := FindVictim(index);
        Replace(index, victim, currDelta);
      }
      label counted:
      Age(index);
      forall other | 0 <= other < PT_SET && other != index
        ensures Row(other) == old(Row(other)) && CountsOk(Row(other))
      {
        assert Row(other) == old@counted(Row(other));
      }
    }

    // read_pattern: the candidates and their confidences are appended to the
    // queues at the tail, which moves one further than their number.
    method ReadPattern(index: nat, deltaQ: array<int>, confidenceQ: array<nat>, way0: nat, conf0: nat, tail0: nat, depth0: nat,
                       globalAccuracy: nat)
      returns (lookaheadWay: nat, lookaheadConf: nat, tail: nat, depth: nat)
      requires Valid() && index < PT_SET && deltaQ.Length == confidenceQ.Length >= tail0 + PT_WAY
      requires deltaQ != cSig as object && confidenceQ != cSig
      modifies deltaQ, confidenceQ
      ensures cSig[index] == 0 ==>
                && (lookaheadWay, lookaheadConf, tail, depth) == (way0, conf0, tail0, depth0)
                && deltaQ[..] == old(deltaQ[..]) && confidenceQ[..] == old(confidenceQ[..])[tail0 := 0]
      ensures cSig[index] > 0 ==>
                var path := Path(depth0, globalAccuracy, conf0);
                var found := Candidates(Row(index), path, PT_WAY);
                var (way, max) := Lookahead(Row(index), path, PT_WAY);
                && tail == tail0 + |found| + 1
                && (forall i :: 0 <= i < |found| ==> (deltaQ[tail0 + i], confidenceQ[tail0 + i]) == found[i])
                && (forall i :: 0 <= i < deltaQ.Length && !(tail0 <= i < tail0 + |found|) ==>
                      deltaQ[i] == old(deltaQ[i]) && confidenceQ[i] == old(confidenceQ[i]))
                && lookaheadConf == max && lookaheadWay == (if way < PT_WAY then way else way0)
                && depth == depth0 + (if max >= PF_THRESHOLD then 1 else 0)
    {
      lookaheadWay, lookaheadConf, tail, depth := way0, conf0, tail0, depth0;
      if cSig[index] == 0 {
        confidenceQ[tail] := 0;
        return;
      }
      ghost var s, path := Row(index), Path(depth0, globalAccuracy, conf0);
      var maxConf := 0;
      for way := 0 to PT_WAY
        invariant Row(index) == s && tail == tail0 + |Candidates(s, path, way)| && lookaheadConf == conf0 && depth == depth0
        invariant forall i :: tail0 <= i < tail ==> (deltaQ[i], confidenceQ[i]) == Candidates(s, path, way)[i - tail0]
        invariant forall i :: 0 <= i < deltaQ.Length && !(tail0 <= i < tail) ==>
                    deltaQ[i] == old(deltaQ[i]) && confidenceQ[i] == old(confidenceQ[i])
        invariant maxConf == Lookahead(s, path, way).1
        invariant lookaheadWay == if Lookahead(s, path, way).0 < PT_WAY then Lookahead(s, path, way).0 else way0
      {
        var localConf := 100 * cDelta[index, way] / cSig[index];
        var conf := if depth != 0 then globalAccuracy * cDelta[index, way] / cSig[index] * lookaheadConf / 100 else localConf;
        if conf >= PF_THRESHOLD {
          confidenceQ[tail] := conf;
          deltaQ[tail] := delta[index, way];
          if conf > maxConf { lookaheadWay, maxConf := way, conf; }
          tail := tail + 1;
        }
      }
      tail := tail + 1;
      lookaheadConf := maxConf;
      if lookaheadConf >= PF_THRESHOLD { depth := depth + 1; }
    }
  }
}
