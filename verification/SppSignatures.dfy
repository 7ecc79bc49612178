// The signature table of the signature path prefetcher
// (champsim/prefetcher/spp_dev/spp_dev.cc, class SIGNATURE_TABLE): 256 pages with
// the compressed history of their deltas, replaced in least recently used order.
module SppSignatures {
  import opened Prelude
  import opened Bits
  import opened Permutations

  const ST_WAY: nat := 256
  const SIG_SHIFT: nat := 3
  const SIG_BIT: nat := 12
  const SIG_DELTA_BIT: nat := 7
  const OFFSETS: int := 64

  // ------------------------------------------------------------- the signature

  // A sign and a magnitude in seven bits.
  function SigDelta(delta: int): nat {
    if delta < 0 then -delta + 64 else delta
  }

  // ((sig << SIG_SHIFT) ^ sig_delta) & SIG_MASK
  function NextSig(sig: nat, delta: int): (r: nat)
    ensures r < Pow2(SIG_BIT)
  {
    var mixed := Xor(Join(0, SIG_SHIFT, sig), SigDelta(delta));
    LowInRange(mixed, SIG_BIT);
    Low(mixed, SIG_BIT)
  }

  function SigOf(sig: nat, deltas: seq<int>): nat {
    if deltas == [] then sig else NextSig(SigOf(sig, deltas[..|deltas| - 1]), deltas[|deltas| - 1])
  }

  // Deltas between blocks of one page get different codes of seven bits.
  lemma {:induction false} SigDeltaInjective(a: int, b: int)
    requires -OFFSETS < a < OFFSETS && -OFFSETS < b < OFFSETS
    ensures SigDelta(a) == SigDelta(b) <==> a == b
    ensures SigDelta(a) < Pow2(SIG_DELTA_BIT)
  {
    assert Pow2(7) == 128 by {
      assert Pow2(4) == 16;
      assert Pow2(7) == 2 * Pow2(6) && Pow2(6) == 2 * Pow2(5) && Pow2(5) == 2 * Pow2(4);
    }
  }

  predicate SameLow(a: nat, b: nat, n: nat) {
    Low(a, n) == Low(b, n)
  }

  // What two signatures have in common moves up by the shift.
  lemma {:induction false} NextSigShifts(a: nat, b: nat, delta: int, n: nat)
    requires SameLow(a, b, n) && n + SIG_SHIFT <= SIG_BIT
    ensures SameLow(NextSig(a, delta), NextSig(b, delta), n + SIG_SHIFT)
  {
    var x, y := NextSig(a, delta), NextSig(b, delta);
    var m := n + SIG_SHIFT;
    forall i: nat ensures Bit(Low(x, m), i) == Bit(Low(y, m), i) {
      NextSigBit(a, delta, i);
      NextSigBit(b, delta, i);
      BitLow(x, m, i);
      BitLow(y, m, i);
      if SIG_SHIFT <= i < m {
        BitLow(a, n, i - SIG_SHIFT);
        BitLow(b, n, i - SIG_SHIFT);
      }
    }
    SameBits(Low(x, m), Low(y, m));
  }

  lemma {:induction false} NextSigBit(a: nat, delta: int, i: nat)
    ensures Bit(NextSig(a, delta), i) ==
            (i < SIG_BIT && ((i >= SIG_SHIFT && Bit(a, i - SIG_SHIFT)) != Bit(SigDelta(delta), i)))
  {
    var shifted := Join(0, SIG_SHIFT, a);
    BitLow(Xor(shifted, SigDelta(delta)), SIG_BIT, i);
    BitXor(shifted, SigDelta(delta), i);
    BitJoin(0, SIG_SHIFT, a, i);
    ZeroBits(i);
  }

  // A signature depends on the last four deltas alone, whatever came before them.
  lemma {:induction false} SignatureIsLastFour(a: nat, b: nat, p: int, q: int, r: int, s: int)
    ensures NextSig(NextSig(NextSig(NextSig(a, p), q), r), s) == NextSig(NextSig(NextSig(NextSig(b, p), q), r), s)
  {
    var a1, b1 := NextSig(a, p), NextSig(b, p);
    NextSigShifts(a, b, p, 0);
    var a2, b2 := NextSig(a1, q), NextSig(b1, q);
    NextSigShifts(a1, b1, q, 3);
    var a3, b3 := NextSig(a2, r), NextSig(b2, r);
    NextSigShifts(a2, b2, r, 6);
    NextSigShifts(a3, b3, s, 9);
    LowOfSmall(NextSig(a3, s), SIG_BIT);
    LowOfSmall(NextSig(b3, s), SIG_BIT);
  }

  lemma {:induction false} HistoriesMeet(sig: nat, sig': nat, before: seq<int>, before': seq<int>, last: seq<int>)
    requires |last| == 4
    ensures SigOf(sig, before + last) == SigOf(sig', before' + last)
  {
    FourMore(sig, before, last);
    FourMore(sig', before', last);
    SignatureIsLastFour(SigOf(sig, before), SigOf(sig', before'), last[0], last[1], last[2], last[3]);
  }

  lemma {:induction false} FourMore(sig: nat, before: seq<int>, last: seq<int>)
    requires |last| == 4
    ensures SigOf(sig, before + last) ==
            NextSig(NextSig(NextSig(NextSig(SigOf(sig, before), last[0]), last[1]), last[2]), last[3])
  {
    hide SigOf, NextSig;
    OneMore(sig, before, last[0]);
    OneMore(sig, before + [last[0]], last[1]);
    OneMore(sig, before + [last[0]] + [last[1]], last[2]);
    OneMore(sig, before + [last[0]] + [last[1]] + [last[2]], last[3]);
    assert before + last == before + [last[0]] + [last[1]] + [last[2]] + [last[3]];
  }

  lemma {:induction false} OneMore(sig: nat, before: seq<int>, delta: int)
    ensures SigOf(sig, before + [delta]) == NextSig(SigOf(sig, before), delta)
  {
    assert (before + [delta])[..|before|] == before;
  }

  // ------------------------------------------------------------------ recency

  // The loop that ages the ways younger than the one used, which becomes 0.
  function Promoted(lru: seq<nat>, way: nat): (r: seq<nat>)
    requires way < |lru|
    ensures |r| == |lru|
    ensures forall i :: 0 <= i < |lru| ==>
              r[i] == if i == way then 0 else if lru[i] < lru[way] then lru[i] + 1 else lru[i]
  {
    seq(|lru|, i requires 0 <= i < |lru| =>
      if i == way then 0 else if lru[i] < lru[way] then lru[i] + 1 else lru[i])
  }

  lemma {:induction false} PromotedIsPermutation(lru: seq<nat>, way: nat)
    requires IsPermutation(lru, |lru|) && way < |lru|
    ensures IsPermutation(Promoted(lru, way), |lru|)
  {
  }

  function InitialLru(n: nat): (r: seq<nat>)
    ensures |r| == n && forall i :: 0 <= i < n ==> r[i] == i
  {
    seq(n, i => i)
  }

  function Uses(n: nat, ways: seq<nat>): (r: seq<nat>)
    requires forall i :: 0 <= i < |ways| ==> ways[i] < n
    ensures |r| == n
  {
    if ways == [] then InitialLru(n) else Promoted(Uses(n, ways[..|ways| - 1]), ways[|ways| - 1])
  }

  lemma {:induction false} OneMoreUse(ways: seq<nat>, way: nat)
    requires (forall i :: 0 <= i < |ways| ==> ways[i] < ST_WAY) && way < ST_WAY
    ensures forall i :: 0 <= i < |ways + [way]| ==> (ways + [way])[i] < ST_WAY
    ensures Uses(ST_WAY, ways + [way]) == Promoted(Uses(ST_WAY, ways), way)
  {
    assert (ways + [way])[..|ways|] == ways;
  }

  // When a way was used last. Ways not used yet rank behind, in their order.
  function LastUse(ways: seq<nat>, way: nat): (r: int)
    ensures r < |ways|
  {
    if ways == [] then -1 - way
    else if ways[|ways| - 1] == way then |ways| - 1
    else LastUse(ways[..|ways| - 1], way)
  }

  // The lru values order the ways by their last use.
  lemma {:induction false} LruIsRecency(n: nat, ways: seq<nat>)
    requires forall i :: 0 <= i < |ways| ==> ways[i] < n
    ensures IsPermutation(Uses(n, ways), n)
    ensures forall a, b :: 0 <= a < n && 0 <= b < n ==>
              (Uses(n, ways)[a] < Uses(n, ways)[b] <==> LastUse(ways, a) > LastUse(ways, b))
  {
    if ways != [] {
      var before, way := ways[..|ways| - 1], ways[|ways| - 1];
      LruIsRecency(n, before);
      PromotedIsPermutation(Uses(n, before), way);
    }
  }

  // So the way with the greatest value was used least recently.
  lemma {:induction false} VictimIsLeastRecent(n: nat, ways: seq<nat>, victim: nat)
    requires (forall i :: 0 <= i < |ways| ==> ways[i] < n) && victim < n && Uses(n, ways)[victim] == n - 1
    ensures forall w :: 0 <= w < n && w != victim ==> LastUse(ways, w) > LastUse(ways, victim)
  {
    LruIsRecency(n, ways);
  }

  // ---------------------------------------------------------------- the table

  datatype Table = Table(valid: seq<bool>, tag: seq<nat>, lastOffset: seq<int>, sig: seq<nat>, lru: seq<nat>)

  predicate Shape(t: Table) {
    |t.valid| == |t.tag| == |t.lastOffset| == |t.sig| == |t.lru| == ST_WAY
  }

  function Fresh(): (t: Table)
    ensures Shape(t) && (forall i :: 0 <= i < ST_WAY ==> !t.valid[i] && t.sig[i] == 0) && t.lru == InitialLru(ST_WAY)
  {
    Table(seq(ST_WAY, _ => false), seq(ST_WAY, _ => 0), seq(ST_WAY, _ => 0), seq(ST_WAY, _ => 0), InitialLru(ST_WAY))
  }

  function HitWay(t: Table, tag: nat, from: nat): (r: nat)
    requires Shape(t) && from <= ST_WAY
    ensures from <= r <= ST_WAY && (forall i :: from <= i < r ==> !(t.valid[i] && t.tag[i] == tag))
    ensures r < ST_WAY ==> t.valid[r] && t.tag[r] == tag
    decreases ST_WAY - from
  {
    if from == ST_WAY || (t.valid[from] && t.tag[from] == tag) then from else HitWay(t, tag, from + 1)
  }

  function InvalidWay(t: Table, from: nat): (r: nat)
    requires Shape(t) && from <= ST_WAY
    ensures from <= r <= ST_WAY && (forall i :: from <= i < r ==> t.valid[i])
    ensures r < ST_WAY ==> !t.valid[r]
    decreases ST_WAY - from
  {
    if from == ST_WAY || !t.valid[from] then from else InvalidWay(t, from + 1)
  }

  function VictimWay(t: Table, from: nat): (r: nat)
    requires Shape(t) && from <= ST_WAY
    ensures from <= r <= ST_WAY && (forall i :: from <= i < r ==> t.lru[i] != ST_WAY - 1)
    ensures r < ST_WAY ==> t.lru[r] == ST_WAY - 1
    decreases ST_WAY - from
  {
    if from == ST_WAY || t.lru[from] == ST_WAY - 1 then from else VictimWay(t, from + 1)
  }

  // The way of a page that is not in the table.
  function NewWay(t: Table): nat
    requires Shape(t)
  {
    if InvalidWay(t, 0) < ST_WAY then InvalidWay(t, 0) else VictimWay(t, 0)
  }

  datatype Reading = Reading(table: Table, lastSig: nat, currSig: nat, delta: int)

  // A history entry of another page that predicted this offset: its signature
  // and delta.
  datatype Bootstrap = Bootstrap(sig: nat, delta: int)

  function HitReading(t: Table, way: nat, offset: int): Reading
    requires Shape(t) && way < ST_WAY
  {
    var delta := offset - t.lastOffset[way];
    if delta == 0 then Reading(t, 0, 0, 0)
    else
      var sig := NextSig(t.sig[way], delta);
      Reading(t.(sig := t.sig[way := sig], lastOffset := t.lastOffset[way := offset]), t.sig[way], sig, delta)
  }

  function Miss(t: Table, way: nat, tag: nat, offset: int, ghr: Option<Bootstrap>): Reading
    requires Shape(t) && way < ST_WAY
  {
    var sig := if ghr.Some? then NextSig(ghr.value.sig, ghr.value.delta) else 0;
    Reading(t.(valid := t.valid[way := true], tag := t.tag[way := tag], lastOffset := t.lastOffset[way := offset],
               sig := t.sig[way := sig]), 0, sig, 0)
  }

  function WayOf(t: Table, tag: nat): nat
    requires Shape(t)
  {
    if HitWay(t, tag, 0) < ST_WAY then HitWay(t, tag, 0) else NewWay(t)
  }

  // With no victim the source asserts.
  function ReadAndUpdate(t: Table, tag: nat, offset: int, ghr: Option<Bootstrap>): (r: Option<Reading>)
    requires Shape(t)
    ensures r.Some? ==> Shape(r.value.table)
    ensures r.Some? ==> WayOf(t, tag) < ST_WAY && r.value.table.lru == Promoted(t.lru, WayOf(t, tag))
  {
    var way := WayOf(t, tag);
    if way >= ST_WAY then None
    else
      var r := if HitWay(t, tag, 0) < ST_WAY then HitReading(t, way, offset) else Miss(t, way, tag, offset, ghr);
      Some(r.(table := r.table.(lru := Promoted(r.table.lru, way))))
  }

  // ---------------------------------------------------------------- invariant

  ghost predicate TableOk(t: Table) {
    && Shape(t)
    && IsPermutation(t.lru, ST_WAY)
    && (forall i, j :: 0 <= i < j < ST_WAY && t.valid[i] && t.valid[j] ==> t.tag[i] != t.tag[j])
    && (forall i :: 0 <= i < ST_WAY ==> t.sig[i] < Pow2(SIG_BIT))
  }

  lemma {:induction false} NewWayExists(t: Table)
    requires TableOk(t)
    ensures NewWay(t) < ST_WAY
    ensures t.valid[NewWay(t)] ==> t.lru[NewWay(t)] == ST_WAY - 1 && forall i :: 0 <= i < ST_WAY ==> t.valid[i]
  {
    Onto(t.lru, ST_WAY, ST_WAY - 1);
  }

  lemma {:induction false} HitKeepsTable(t: Table, way: nat, offset: int)
    requires TableOk(t) && way < ST_WAY
    ensures var u := HitReading(t, way, offset).table;
            TableOk(u) && u.lastOffset[way] == offset && u.valid == t.valid && u.tag == t.tag
  {
  }

  lemma {:induction false} MissKeepsTable(t: Table, way: nat, tag: nat, offset: int, ghr: Option<Bootstrap>)
    requires TableOk(t) && way < ST_WAY && HitWay(t, tag, 0) == ST_WAY
    ensures var u := Miss(t, way, tag, offset, ghr).table;
            TableOk(u) && u.lastOffset[way] == offset && u.valid[way] && u.tag[way] == tag
  {
    assert Pow2(SIG_BIT) > 0;
  }

  // An access always finds a way: the page's own, a free one, or the least
  // recently used. The table keeps its invariant, the page is in it afterwards,
  // in front, and training is asked for only with a real delta.
  lemma {:induction false} ReadKeepsTable(t: Table, tag: nat, offset: int, ghr: Option<Bootstrap>)
    requires TableOk(t)
    ensures ReadAndUpdate(t, tag, offset, ghr).Some?
    ensures var r := ReadAndUpdate(t, tag, offset, ghr).value;
            && TableOk(r.table)
            && (r.lastSig != 0 ==> r.delta != 0)
            && HitWay(r.table, tag, 0) < ST_WAY && r.table.lru[HitWay(r.table, tag, 0)] == 0
            && r.table.lastOffset[HitWay(r.table, tag, 0)] == offset
  {
    NewWayExists(t);
    var way := WayOf(t, tag);
    if HitWay(t, tag, 0) < ST_WAY { HitKeepsTable(t, way, offset); } else { MissKeepsTable(t, way, tag, offset, ghr); }
    PromotedIsPermutation(t.lru, way);
    var r := ReadAndUpdate(t, tag, offset, ghr).value;
    assert r.table.valid[way] && r.table.tag[way] == tag;
  }

  datatype Access = Access(tag: nat, offset: int, ghr: Option<Bootstrap>)

  function Accesses(accesses: seq<Access>): (t: Option<Table>)
    ensures t.Some? ==> Shape(t.value)
  {
    if accesses == [] then Some(Fresh())
    else
      var before := Accesses(accesses[..|accesses| - 1]);
      if before.None? then None
      else
        var a := accesses[|accesses| - 1];
        var r := ReadAndUpdate(before.value, a.tag, a.offset, a.ghr);
        if r.None? then None else Some(r.value.table)
  }

  function WaysUsed(accesses: seq<Access>): seq<nat> {
    if accesses == [] then []
    else
      var before := Accesses(accesses[..|accesses| - 1]);
      WaysUsed(accesses[..|accesses| - 1]) +
      if before.None? then [] else [WayOf(before.value, accesses[|accesses| - 1].tag)]
  }

  // No access of any run fails for want of a victim, and the lru values order the
  // ways by their last use, so that a victim is the way used least recently.
  lemma {:induction false} VictimAlwaysFound(accesses: seq<Access>)
    ensures Accesses(accesses).Some? && TableOk(Accesses(accesses).value)
    ensures var t, ways := Accesses(accesses).value, WaysUsed(accesses);
            && (forall i :: 0 <= i < |ways| ==> ways[i] < ST_WAY)
            && (forall a, b :: 0 <= a < ST_WAY && 0 <= b < ST_WAY ==>
                  (t.lru[a] < t.lru[b] <==> LastUse(ways, a) > LastUse(ways, b)))
  {
    LruAreUses(accesses);
    LruIsRecency(ST_WAY, WaysUsed(accesses));
  }

  lemma {:induction false} LruAreUses(accesses: seq<Access>)
    ensures Accesses(accesses).Some? && TableOk(Accesses(accesses).value)
    ensures var ways := WaysUsed(accesses);
            && (forall i :: 0 <= i < |ways| ==> ways[i] < ST_WAY)
            && Accesses(accesses).value.lru == Uses(ST_WAY, ways)
  {
    if accesses != [] {
      var before, a := accesses[..|accesses| - 1], accesses[|accesses| - 1];
      LruAreUses(before);
      var t := Accesses(before).value;
      ReadKeepsTable(t, a.tag, a.offset, a.ghr);
      OneMoreUse(WaysUsed(before), WayOf(t, a.tag));
    }
  }

  // ------------------------------------------------- what a signature stands for

  // Where a page has been since it last entered the table, and the signature it
  // entered with.
  datatype Trail = Trail(start: nat, offsets: seq<int>)

  predicate Present(t: Table, tag: nat)
    requires Shape(t)
  {
    exists w :: 0 <= w < ST_WAY && t.valid[w] && t.tag[w] == tag
  }

  function Entered(a: Access): Trail {
    Trail(if a.ghr.Some? then NextSig(a.ghr.value.sig, a.ghr.value.delta) else 0, [a.offset])
  }

  function TrailOf(accesses: seq<Access>, tag: nat): Option<Trail> {
    if accesses == [] then None
    else
      var before, a := accesses[..|accesses| - 1], accesses[|accesses| - 1];
      var trail := TrailOf(before, tag);
      if a.tag != tag then trail
      else if trail.Some? && Accesses(before).Some? && Present(Accesses(before).value, tag) then
        Some(trail.value.(offsets := trail.value.offsets + [a.offset]))
      else Some(Entered(a))
  }

  // The steps from one offset to the next that lead elsewhere.
  function Deltas(offsets: seq<int>): seq<int> {
    var n := |offsets|;
    if n < 2 then []
    else
      var delta := offsets[n - 1] - offsets[n - 2];
      Deltas(offsets[..n - 1]) + if delta == 0 then [] else [delta]
  }

  // Way w describes a trail.
  predicate Follows(t: Table, w: nat, trail: Trail)
    requires Shape(t) && w < ST_WAY
  {
    && trail.offsets != [] && t.lastOffset[w] == trail.offsets[|trail.offsets| - 1]
    && t.sig[w] == SigOf(trail.start, Deltas(trail.offsets))
  }

  lemma {:induction false} DeltasSnoc(offsets: seq<int>, offset: int)
    requires offsets != []
    ensures var delta := offset - offsets[|offsets| - 1];
            Deltas(offsets + [offset]) == Deltas(offsets) + if delta == 0 then [] else [delta]
  {
    assert (offsets + [offset])[..|offsets|] == offsets;
  }

  lemma {:induction false} TrailSnoc(t: Table, w: nat, trail: Trail, offset: int)
    requires Shape(t) && w < ST_WAY && Follows(t, w, trail)
    ensures Follows(HitReading(t, w, offset).table, w, trail.(offsets := trail.offsets + [offset]))
  {
    hide NextSig;
    var delta := offset - t.lastOffset[w];
    DeltasSnoc(trail.offsets, offset);
    if delta == 0 {
      assert Deltas(trail.offsets) + [] == Deltas(trail.offsets);
    } else {
      OneMore(trail.start, Deltas(trail.offsets), delta);
    }
  }

  lemma {:induction false} PresentHits(t: Table, tag: nat)
    requires Shape(t)
    ensures Present(t, tag) <==> HitWay(t, tag, 0) < ST_WAY
  {
  }

  lemma {:induction false} EnteredAt(a: Access)
    ensures SigOf(Entered(a).start, Deltas(Entered(a).offsets)) == Entered(a).start
  {
  }

  // The way of the page accessed.
  lemma {:induction false} AccessFollows(t: Table, a: Access, trail: Option<Trail>)
    requires Shape(t) && TableOk(t)
    requires HitWay(t, a.tag, 0) < ST_WAY ==> trail.Some? && Follows(t, HitWay(t, a.tag, 0), trail.value)
    ensures var w := WayOf(t, a.tag);
            && w < ST_WAY && ReadAndUpdate(t, a.tag, a.offset, a.ghr).Some?
            && var r := ReadAndUpdate(t, a.tag, a.offset, a.ghr).value.table;
               r.valid[w] && r.tag[w] == a.tag &&
               Follows(r, w, if Present(t, a.tag) then trail.value.(offsets := trail.value.offsets + [a.offset]) else Entered(a))
  {
    hide NextSig, SigOf, Deltas, TableOk, Present, Promoted, NewWay;
    NewWayExists(t);
    PresentHits(t, a.tag);
    var w := WayOf(t, a.tag);
    if HitWay(t, a.tag, 0) < ST_WAY { TrailSnoc(t, w, trail.value, a.offset); } else { EnteredAt(a); }
  }

  // The other ways stay what they are, and are of other pages.
  lemma {:induction false} AccessElsewhere(t: Table, a: Access, w: nat)
    requires TableOk(t) && w < ST_WAY && w != WayOf(t, a.tag) && ReadAndUpdate(t, a.tag, a.offset, a.ghr).Some?
    ensures var r := ReadAndUpdate(t, a.tag, a.offset, a.ghr).value.table;
            && r.valid[w] == t.valid[w] && r.tag[w] == t.tag[w] && r.sig[w] == t.sig[w] && r.lastOffset[w] == t.lastOffset[w]
            && (t.valid[w] ==> t.tag[w] != a.tag)
  {
    hide NextSig;
  }

  // In every run each page in the table has the signature of the deltas it made
  // since it entered, and the offset it was last at.
  lemma {:induction false} SignaturesFollowTrails(accesses: seq<Access>, w: nat)
    requires w < ST_WAY
    ensures Accesses(accesses).Some?
    ensures var t := Accesses(accesses).value; t.valid[w] ==>
              TrailOf(accesses, t.tag[w]).Some? && Follows(t, w, TrailOf(accesses, t.tag[w]).value)
  {
    hide SigOf, NextSig, Deltas, HitReading, Miss, TableOk, Follows, WayOf;
    LruAreUses(accesses);
    if accesses != [] {
      var before, a := accesses[..|accesses| - 1], accesses[|accesses| - 1];
      LruAreUses(before);
      var t := Accesses(before).value;
      if HitWay(t, a.tag, 0) < ST_WAY { SignaturesFollowTrails(before, HitWay(t, a.tag, 0)); }
      AccessFollows(t, a, TrailOf(before, a.tag));
      if w != WayOf(t, a.tag) {
        SignaturesFollowTrails(before, w);
        AccessElsewhere(t, a, w);
        SameWay(t, Accesses(accesses).value, w, TrailOf(before, t.tag[w]));
      }
    }
  }

  lemma {:induction false} SameWay(t: Table, r: Table, w: nat, trail: Option<Trail>)
    requires Shape(t) && Shape(r) && w < ST_WAY && r.sig[w] == t.sig[w] && r.lastOffset[w] == t.lastOffset[w]
    ensures trail.Some? && Follows(t, w, trail.value) ==> Follows(r, w, trail.value)
  {
  }

  // And an access of such a page reads that signature with the one that the new
  // delta makes of it; no delta, or a page that enters, trains nothing.
  lemma {:induction false} ReadingsFollowTrails(accesses: seq<Access>, a: Access)
    ensures Accesses(accesses).Some? && ReadAndUpdate(Accesses(accesses).value, a.tag, a.offset, a.ghr).Some?
    ensures var t := Accesses(accesses).value;
            var r := ReadAndUpdate(t, a.tag, a.offset, a.ghr).value;
            if Present(t, a.tag) then
              && TrailOf(accesses, a.tag).Some? && TrailOf(accesses, a.tag).value.offsets != []
              && var trail := TrailOf(accesses, a.tag).value;
                 var deltas := Deltas(trail.offsets);
                 && r.delta == a.offset - trail.offsets[|trail.offsets| - 1]
                 && r.lastSig == (if r.delta == 0 then 0 else SigOf(trail.start, deltas))
                 && r.currSig == (if r.delta == 0 then 0 else SigOf(trail.start, deltas + [r.delta]))
            else r.delta == 0 && r.lastSig == 0 && r.currSig == Entered(a).start
  {
    hide NextSig, SigOf, Deltas, TableOk, Present, Promoted, NewWay, TrailOf, Accesses;
    LruAreUses(accesses);
    var t := Accesses(accesses).value;
    ReadKeepsTable(t, a.tag, a.offset, a.ghr);
    PresentHits(t, a.tag);
    if Present(t, a.tag) {
      SignaturesFollowTrails(accesses, HitWay(t, a.tag, 0));
      var trail := TrailOf(accesses, a.tag).value;
      OneMore(trail.start, Deltas(trail.offsets), a.offset - trail.offsets[|trail.offsets| - 1]);
    }
  }

  // -------------------------------------------------------------- the component

  class SignatureTable {
    const valid: array<bool>
    const tag: array<nat>
    const lastOffset: array<int>
    const sig: array<nat>
    const lru: array<nat>

    ghost predicate Sized() {
      && valid.Length == tag.Length == lastOffset.Length == sig.Length == lru.Length == ST_WAY
      && tag != sig && tag != lru && sig != lru
      && lastOffset as object !in {tag as object, sig, lru}
    }

    ghost function View(): (t: Table)
      requires Sized()
      reads valid, tag, lastOffset, sig, lru
      ensures Shape(t)
    {
      Table(valid[..], tag[..], lastOffset[..], sig[..], lru[..])
    }

    ghost predicate Valid()
      reads valid, tag, lastOffset, sig, lru
    {
      Sized() && TableOk(View())
    }

    constructor ()
      ensures Valid() && View() == Fresh()
      ensures fresh(valid) && fresh(tag) && fresh(lastOffset) && fresh(sig) && fresh(lru)
    {
      valid := new bool[ST_WAY](_ => false);
      tag := new nat[ST_WAY](_ => 0);
      lastOffset := new int[ST_WAY](_ => 0);
      sig := new nat[ST_WAY](_ => 0);
      lru := new nat[ST_WAY](i => i);
    }

    method FindHit(page: nat) returns (way: nat)
      requires Sized()
      ensures way == HitWay(View(), page, 0)
    {
      way := 0;
      while way < ST_WAY && !(valid[way] && tag[way] == page)
        invariant way <= ST_WAY && HitWay(View(), page, 0) == HitWay(View(), page, way)
      {
        way := way + 1;
      }
    }

    method FindInvalid() returns (way: nat)
      requires Sized()
      ensures way == InvalidWay(View(), 0)
    {
      way := 0;
      while way < ST_WAY && valid[way]
        invariant way <= ST_WAY && InvalidWay(View(), 0) == InvalidWay(View(), way)
      {
        way := way + 1;
      }
    }

    method FindVictim() returns (way: nat)
      requires Sized()
      ensures way == VictimWay(View(), 0)
    {
      way := 0;
      while way < ST_WAY && lru[way] != ST_WAY - 1
        invariant way <= ST_WAY && VictimWay(View(), 0) == VictimWay(View(), way)
      {
        way := way + 1;
      }
    }

    // The values stay below ST_WAY while they are counted up.
    method Promote(way: nat)
      requires Sized() && way < ST_WAY && IsPermutation(lru[..], ST_WAY)
      modifies lru
      ensures lru[..] == Promoted(old(lru[..]), way)
    {
      for i := 0 to ST_WAY
        invariant forall k :: 0 <= k < i ==>
                    lru[k] == if old(lru[k]) < old(lru[way]) then old(lru[k]) + 1 else old(lru[k])
        invariant forall k :: i <= k < ST_WAY ==> lru[k] == old(lru[k])
      {
        if lru[i] < lru[way] {
          lru[i] := lru[i] + 1;
          assert lru[i] < ST_WAY by { assert old(lru[..])[way] < ST_WAY; }
        }
      }
      lru[way] := 0;
    }

    method WriteHit(way: nat, offset: int) returns (lastSig: nat, currSig: nat, delta: int)
      requires Sized() && way < ST_WAY
      modifies sig, lastOffset
      ensures Reading(View(), lastSig, currSig, delta) == HitReading(old(View()), way, offset)
    {
      lastSig, currSig, delta := sig[way], 0, offset - lastOffset[way];
      if delta != 0 {
        sig[way] := NextSig(lastSig, delta);
        currSig := sig[way];
        lastOffset[way] := offset;
      } else {
        lastSig := 0;
      }
    }

    method WriteMiss(way: nat, page: nat, offset: int, ghr: Option<Bootstrap>) returns (currSig: nat)
      requires Sized() && way < ST_WAY
      modifies valid, tag, sig, lastOffset
      ensures Reading(View(), 0, currSig, 0) == Miss(old(View()), way, page, offset, ghr)
    {
      valid[way], tag[way], sig[way], lastOffset[way] := true, page, 0, offset;
      if ghr.Some? {
        sig[way] := NextSig(ghr.value.sig, ghr.value.delta);
      }
      currSig := sig[way];
    }

    method ReadAndUpdateSig(page: nat, offset: int, ghr: Option<Bootstrap>)
      returns (lastSig: nat, currSig: nat, delta: int)
      requires Valid()
      modifies valid, tag, lastOffset, sig, lru
      ensures Valid()
      ensures Some(Reading(View(), lastSig, currSig, delta)) == ReadAndUpdate(old(View()), page, offset, ghr)
    {
      ReadKeepsTable(View(), page, offset, ghr);
      lastSig, currSig, delta := 0, 0, 0;
      var way := FindHit(page);
      if way < ST_WAY {
        lastSig, currSig, delta := WriteHit(way, offset);
      } else {
        way := FindInvalid();
        if way == ST_WAY { way := FindVictim(); }
        currSig := WriteMiss(way, page, offset, ghr);
      }
      Promote(way);
    }
  }
}
