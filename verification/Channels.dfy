// The queues between two cache levels and their collision checks
// (champsim/src/channel.cc, champsim/inc/channel.h).
module Channels {
  import opened Prelude
  import opened SetUnion

  datatype AccessType = Load | Rfo | Prefetch | Write | Translation

  // `deps` are the instructions that wait for the request.
  datatype Request = Request(addr: nat, vaddr: nat, kind: AccessType, translated: bool, respond: bool, checked: bool,
                             deps: seq<nat>)

  // A response pushed to the return queue of an upper level; `translated` says
  // what kind of address it has.
  datatype Response = Response(to: nat, addr: nat, translated: bool, deps: seq<nat>)

  datatype Queues = Queues(wq: seq<Request>, rq: seq<Request>, pq: seq<Request>)

  // A power of two: 1 compares whole addresses, the block size compares blocks.
  type Unit = n: nat | 0 < n witness 1

  predicate Same(a: nat, b: nat, unit: Unit) {
    a / unit == b / unit
  }

  // ------------------------------------------------------------------- code

  // std::find_if on the address alone, over the first hi entries.
  function FindAddr(q: seq<Request>, hi: nat, addr: nat, unit: Unit): (f: nat)
    requires hi <= |q|
    ensures f <= hi
    ensures f < hi ==> Same(q[f].addr, addr, unit)
    ensures forall k :: 0 <= k < f ==> !Same(q[k].addr, addr, unit)
  {
    if hi == 0 then 0
    else
      var f := FindAddr(q, hi - 1, addr, unit);
      if f < hi - 1 || Same(q[hi - 1].addr, addr, unit) then f else hi
  }

  // do_collision_for: only the first match is considered, and only if both or
  // neither address has been translated.
  function Collision(q: seq<Request>, hi: nat, x: Request, unit: Unit): (f: nat)
    requires hi <= |q|
    ensures f <= hi
    ensures f < hi ==> Same(q[f].addr, x.addr, unit) && q[f].translated == x.translated
  {
    var f := FindAddr(q, hi, x.addr, unit);
    if f < hi && q[f].translated == x.translated then f else hi
  }

  function Merged(destination: Request, source: Request): Request {
    destination.(respond := destination.respond || source.respond, deps := Union(destination.deps, source.deps))
  }

  // The entry at k goes into an older one at f.
  function MergeInto(q: seq<Request>, f: nat, k: nat): (r: seq<Request>)
    requires f < k < |q|
    ensures |r| == |q| - 1
  {
    q[f := Merged(q[f], q[k])][..k] + q[k + 1..]
  }

  function Erase(q: seq<Request>, k: nat): (r: seq<Request>)
    requires k < |q|
    ensures |r| == |q| - 1
  {
    q[..k] + q[k + 1..]
  }

  function MarkChecked(q: seq<Request>, k: nat): (r: seq<Request>)
    requires k < |q|
    ensures |r| == |q|
  {
    q[k := q[k].(checked := true)]
  }

  function FirstUnchecked(q: seq<Request>): (k: nat)
    ensures k <= |q|
    ensures k < |q| ==> !q[k].checked
    ensures forall i :: 0 <= i < k ==> q[i].checked
  {
    if q == [] || !q[0].checked then 0 else 1 + FirstUnchecked(q[1..])
  }

  // The loop over the write queue from k on.
  function MergeFrom(q: seq<Request>, k: nat, unit: Unit): (r: seq<Request>)
    requires k <= |q|
    ensures |r| <= |q|
    decreases |q| - k
  {
    if k == |q| then q
    else
      var f := Collision(q, k, q[k], unit);
      if f < k then MergeFrom(MergeInto(q, f, k), k, unit) else MergeFrom(MarkChecked(q, k), k + 1, unit)
  }

  datatype Read = Read(q: seq<Request>, out: seq<Response>)

  function Forward(x: Request, to: nat): seq<Response> {
    if x.respond then [Response(to, x.addr, x.translated, x.deps)] else []
  }

  // The loop over the read or the prefetch queue from k on: forward from a
  // write, or merge with an older entry.
  function ReadFrom(wq: seq<Request>, r: Read, k: nat, writeUnit: Unit, readUnit: Unit, to: nat): (r': Read)
    requires k <= |r.q|
    ensures |r'.q| <= |r.q|
    decreases |r.q| - k
  {
    if k == |r.q| then r
    else
      var x := r.q[k];
      var f := Collision(r.q, k, x, readUnit);
      if Collision(wq, |wq|, x, writeUnit) < |wq| then
        ReadFrom(wq, Read(Erase(r.q, k), r.out + Forward(x, to)), k, writeUnit, readUnit, to)
      else if f < k then ReadFrom(wq, Read(MergeInto(r.q, f, k), r.out), k, writeUnit, readUnit, to)
      else ReadFrom(wq, Read(MarkChecked(r.q, k), r.out), k + 1, writeUnit, readUnit, to)
  }

  // channel::check_collision for the channel whose return queue is `to`.
  function CheckCollision(qs: Queues, block: Unit, matchOffset: bool, to: nat, out: seq<Response>): (r: (Queues, seq<Response>)) {
    var writeUnit: Unit := if matchOffset then 1 else block;
    var wq := MergeFrom(qs.wq, FirstUnchecked(qs.wq), writeUnit);
    var rq := ReadFrom(wq, Read(qs.rq, out), FirstUnchecked(qs.rq), writeUnit, block, to);
    var pq := ReadFrom(wq, Read(qs.pq, rq.out), FirstUnchecked(qs.pq), writeUnit, block, to);
    (Queues(wq, rq.q, pq.q), pq.out)
  }

  // do_add_queue; the result says whether there was room.
  function AddQueue(q: seq<Request>, size: nat, x: Request): (r: (seq<Request>, bool))
    ensures |q| <= size ==> |r.0| <= size
  {
    if |q| >= size then (q, false) else (q + [x.(checked := false)], true)
  }

  // ----------------------------------------------------- deduplication, and not

  // Entries for one block agree on whether it has been translated.
  predicate FlagsAgree(q: seq<Request>, unit: Unit) {
    forall i, j :: 0 <= i < |q| && 0 <= j < |q| && Same(q[i].addr, q[j].addr, unit) ==> q[i].translated == q[j].translated
  }

  predicate DistinctUpTo(q: seq<Request>, k: nat, unit: Unit) {
    k <= |q| && forall i, j :: 0 <= i < j < k ==> !Same(q[i].addr, q[j].addr, unit)
  }

  lemma {:induction false} MergeIntoAt(q: seq<Request>, f: nat, k: nat, i: nat)
    requires f < k < |q| && i < |q| - 1
    ensures var r, s := MergeInto(q, f, k)[i], q[if i < k then i else i + 1]; r.addr == s.addr && r.translated == s.translated
  {
  }

  // Merging changes neither which blocks are queued nor with which flags.
  lemma {:induction false} MergeIntoAgrees(q: seq<Request>, f: nat, k: nat, unit: Unit)
    requires f < k < |q| && Same(q[f].addr, q[k].addr, unit) && q[f].translated == q[k].translated
    ensures FlagsAgree(MergeInto(q, f, k), unit) <==> FlagsAgree(q, unit)
  {
    var r := MergeInto(q, f, k);
    forall i | 0 <= i < |r| ensures var s := q[if i < k then i else i + 1]; r[i].addr == s.addr && r[i].translated == s.translated {
      MergeIntoAt(q, f, k, i);
    }
    if FlagsAgree(r, unit) {
      forall i, j | 0 <= i < |q| && 0 <= j < |q| && Same(q[i].addr, q[j].addr, unit)
        ensures q[i].translated == q[j].translated
      {
        var a, b := if i == k then f else if i < k then i else i - 1, if j == k then f else if j < k then j else j - 1;
        assert Same(r[a].addr, r[b].addr, unit);
      }
    }
  }

  lemma {:induction false} MergeAgrees(q: seq<Request>, k: nat, unit: Unit)
    requires k <= |q|
    ensures FlagsAgree(MergeFrom(q, k, unit), unit) <==> FlagsAgree(q, unit)
    decreases |q| - k
  {
    if k < |q| {
      var f := Collision(q, k, q[k], unit);
      if f < k {
        MergeIntoAgrees(q, f, k, unit);
        MergeAgrees(MergeInto(q, f, k), k, unit);
      } else {
        MergeAgrees(MarkChecked(q, k), k + 1, unit);
        MarkAgrees(q, k, unit);
      }
    }
  }

  lemma {:induction false} MarkAgrees(q: seq<Request>, k: nat, unit: Unit)
    requires k < |q|
    ensures FlagsAgree(MarkChecked(q, k), unit) <==> FlagsAgree(q, unit)
  {
    var r := MarkChecked(q, k);
    assert forall i :: 0 <= i < |q| ==> r[i].addr == q[i].addr && r[i].translated == q[i].translated;
    if FlagsAgree(r, unit) {
      forall i, j | 0 <= i < |q| && 0 <= j < |q| && Same(q[i].addr, q[j].addr, unit) ensures q[i].translated == q[j].translated {
        assert Same(r[i].addr, r[j].addr, unit);
      }
    }
  }

  lemma {:induction false} AgreeingMerge(q: seq<Request>, k: nat, unit: Unit)
    requires k <= |q| && FlagsAgree(q, unit) && DistinctUpTo(q, k, unit)
    ensures var r := MergeFrom(q, k, unit); DistinctUpTo(r, |r|, unit)
    decreases |q| - k
  {
    if k < |q| {
      var f := Collision(q, k, q[k], unit);
      if f < k {
        MergeIntoAgrees(q, f, k, unit);
        AgreeingMerge(MergeInto(q, f, k), k, unit);
      } else {
        MarkAgrees(q, k, unit);
        AgreeingMerge(MarkChecked(q, k), k + 1, unit);
      }
    }
  }

  // Merging leaves the entries before k where they are.
  lemma {:induction false} MergeKeepsPrefix(q: seq<Request>, k: nat, unit: Unit)
    requires k <= |q|
    ensures var r := MergeFrom(q, k, unit);
            k <= |r| && forall i :: 0 <= i < k ==> r[i].addr == q[i].addr && r[i].translated == q[i].translated
    decreases |q| - k
  {
    if k < |q| {
      var f := Collision(q, k, q[k], unit);
      if f < k { MergeKeepsPrefix(MergeInto(q, f, k), k, unit); } else { MergeKeepsPrefix(MarkChecked(q, k), k + 1, unit); }
    }
  }

  // Checking the entries from k on leaves at most one for each block exactly when
  // the others had at most one, and entries for one block agree on translation.
  lemma {:induction false} MergeDeduplicates(q: seq<Request>, k: nat, unit: Unit)
    requires k <= |q|
    ensures var r := MergeFrom(q, k, unit); DistinctUpTo(r, |r|, unit) <==> DistinctUpTo(q, k, unit) && FlagsAgree(q, unit)
  {
    var r := MergeFrom(q, k, unit);
    MergeAgrees(q, k, unit);
    MergeKeepsPrefix(q, k, unit);
    if DistinctUpTo(q, k, unit) && FlagsAgree(q, unit) { AgreeingMerge(q, k, unit); }
    if DistinctUpTo(r, |r|, unit) {
      DistinctAgrees(r, unit);
      assert forall i, j :: 0 <= i < j < k ==> !Same(r[i].addr, r[j].addr, unit);
    }
  }

  lemma {:induction false} DistinctAgrees(r: seq<Request>, unit: Unit)
    requires DistinctUpTo(r, |r|, unit)
    ensures FlagsAgree(r, unit)
  {
    forall i, j | 0 <= i < |r| && 0 <= j < |r| && i != j ensures !Same(r[i].addr, r[j].addr, unit) {
      if i < j { assert !Same(r[i].addr, r[j].addr, unit); } else { assert !Same(r[j].addr, r[i].addr, unit); }
    }
  }

  // Two entries of one block that agree on whether it has been translated.
  predicate Twins(x: Request, y: Request, unit: Unit) {
    Same(x.addr, y.addr, unit) && x.translated == y.translated
  }

  predicate TwinlessUpTo(q: seq<Request>, k: nat, unit: Unit) {
    k <= |q| && forall i, j :: 0 <= i < j < k ==> !Twins(q[i], q[j], unit)
  }

  // What std::find_if finds for the entry at i in the whole queue agrees with it.
  predicate FirstAgrees(q: seq<Request>, i: nat, unit: Unit)
    requires i < |q|
  {
    var f := FindAddr(q, |q|, q[i].addr, unit);
    f < |q| && q[f].translated == q[i].translated
  }

  // Twins agree with the first entry of their block.
  predicate TwinsFound(q: seq<Request>, unit: Unit) {
    forall i, j :: 0 <= i < j < |q| && Twins(q[i], q[j], unit) ==> FirstAgrees(q, i, unit)
  }

  lemma {:induction false} FindIs(q: seq<Request>, hi: nat, addr: nat, unit: Unit, f: nat)
    requires f < hi <= |q| && Same(q[f].addr, addr, unit) && forall k :: 0 <= k < f ==> !Same(q[k].addr, addr, unit)
    ensures FindAddr(q, hi, addr, unit) == f
  {
  }

  // Queues with the same blocks and flags.
  predicate SameKeys(x: seq<Request>, y: seq<Request>) {
    |x| == |y| && forall i :: 0 <= i < |x| ==> x[i].addr == y[i].addr && x[i].translated == y[i].translated
  }

  lemma {:induction false} SameKeysFound(x: seq<Request>, y: seq<Request>, unit: Unit)
    requires SameKeys(x, y) && TwinsFound(x, unit)
    ensures TwinsFound(y, unit)
  {
    forall i, j | 0 <= i < j < |y| && Twins(y[i], y[j], unit) ensures FirstAgrees(y, i, unit) {
      assert Twins(x[i], x[j], unit) && FirstAgrees(x, i, unit);
      FindIs(y, |y|, y[i].addr, unit, FindAddr(x, |x|, x[i].addr, unit));
    }
  }

  lemma {:induction false} MergeIntoKeys(q: seq<Request>, f: nat, k: nat)
    requires f < k < |q|
    ensures SameKeys(MergeInto(q, f, k), Erase(q, k))
  {
  }

  // An entry that agrees with an earlier, first entry of its block hides nothing.
  lemma {:induction false} EraseFound(q: seq<Request>, f: nat, k: nat, unit: Unit)
    requires f < k < |q| && f == FindAddr(q, k, q[k].addr, unit) && q[f].translated == q[k].translated
    ensures TwinsFound(Erase(q, k), unit) <==> TwinsFound(q, unit)
  {
    FindIs(q, |q|, q[k].addr, unit, f);
    if TwinsFound(q, unit) { EraseFoundFrom(q, f, k, unit); }
    if TwinsFound(Erase(q, k), unit) { EraseFoundBack(q, f, k, unit); }
  }

  // The first entry of a block stays the first.
  lemma {:induction false} EraseFirst(q: seq<Request>, f: nat, k: nat, addr: nat, unit: Unit)
    requires f < k < |q| && Same(q[f].addr, q[k].addr, unit)
    requires FindAddr(q, |q|, addr, unit) < |q|
    ensures var m := FindAddr(q, |q|, addr, unit);
            m != k && FindAddr(Erase(q, k), |q| - 1, addr, unit) == if m < k then m else m - 1
  {
    var m := FindAddr(q, |q|, addr, unit);
    var r := Erase(q, k);
    if m == k { assert Same(q[f].addr, addr, unit); }
    var n := if m < k then m else m - 1;
    forall i | 0 <= i < n ensures !Same(r[i].addr, addr, unit) { assert r[i] == q[if i < k then i else i + 1]; }
    FindIs(r, |r|, addr, unit, n);
  }

  lemma {:induction false} EraseAt(q: seq<Request>, k: nat, i: nat)
    requires k < |q| && i < |q| - 1
    ensures Erase(q, k)[i] == q[if i < k then i else i + 1]
  {
  }

  lemma {:induction false} ErasedAgrees(q: seq<Request>, f: nat, k: nat, a: nat, unit: Unit)
    requires f < k < |q| && Same(q[f].addr, q[k].addr, unit) && a < |q| && a != k && FirstAgrees(q, a, unit)
    ensures FirstAgrees(Erase(q, k), if a < k then a else a - 1, unit)
  {
    EraseFirst(q, f, k, q[a].addr, unit);
  }

  lemma {:induction false} EraseFoundFrom(q: seq<Request>, f: nat, k: nat, unit: Unit)
    requires f < k < |q| && Same(q[f].addr, q[k].addr, unit) && TwinsFound(q, unit)
    ensures TwinsFound(Erase(q, k), unit)
  {
    hide FindAddr, Twins, Same, Erase, FirstAgrees;
    var r := Erase(q, k);
    forall i, j | 0 <= i < j < |r| && Twins(r[i], r[j], unit) ensures FirstAgrees(r, i, unit) {
      var a, b := if i < k then i else i + 1, if j < k then j else j + 1;
      EraseAt(q, k, i);
      EraseAt(q, k, j);
      assert Twins(q[a], q[b], unit) && FirstAgrees(q, a, unit);
      ErasedAgrees(q, f, k, a, unit);
    }
  }

  // Entry i is the one at k, or its twin; the first entry of the block is f.
  lemma {:induction false} TwinFound(q: seq<Request>, i: nat, k: nat, f: nat, unit: Unit)
    requires i < |q| && k < |q| && f < |q| && FindAddr(q, |q|, q[k].addr, unit) == f
    requires Twins(q[f], q[k], unit) && (i == k || Twins(q[i], q[k], unit))
    ensures FirstAgrees(q, i, unit)
  {
    FindIs(q, |q|, q[i].addr, unit, f);
  }

  lemma {:induction false} EraseFoundBack(q: seq<Request>, f: nat, k: nat, unit: Unit)
    requires f < k < |q| && Twins(q[f], q[k], unit) && FindAddr(q, |q|, q[k].addr, unit) == f && TwinsFound(Erase(q, k), unit)
    ensures TwinsFound(q, unit)
  {
    hide FindAddr, Twins, Same;
    var r := Erase(q, k);
    forall i, j | 0 <= i < j < |q| && Twins(q[i], q[j], unit) ensures FirstAgrees(q, i, unit) {
      if i == k || j == k {
        TwinFound(q, i, k, f, unit);
      } else {
        var a, b := if i < k then i else i - 1, if j < k then j else j - 1;
        assert r[a] == q[i] && r[b] == q[j];
        assert Twins(r[a], r[b], unit) && FirstAgrees(r, a, unit);
        assert FindAddr(q, |q|, q[i].addr, unit) < |q|;
        EraseFirst(q, f, k, q[i].addr, unit);
      }
    }
  }

  // The entry at k is kept: it has a twin before it only if the first entry of
  // the block hides that twin.
  lemma {:induction false} KeptTwinless(q: seq<Request>, k: nat, unit: Unit)
    requires k < |q| && Collision(q, k, q[k], unit) == k
    ensures TwinlessUpTo(q, k + 1, unit) && TwinsFound(q, unit) <==> TwinlessUpTo(q, k, unit) && TwinsFound(q, unit)
  {
    if TwinlessUpTo(q, k, unit) && TwinsFound(q, unit) {
      forall i | 0 <= i < k ensures !Twins(q[i], q[k], unit) {
        if Twins(q[i], q[k], unit) {
          assert FirstAgrees(q, i, unit);
          var f := FindAddr(q, |q|, q[i].addr, unit);
          FindIs(q, k, q[k].addr, unit, f);
        }
      }
    }
  }

  // Checking the entries from k on leaves no twins exactly when the others have
  // none, and twins agree with the first entry of their block.
  lemma {:induction false} MergeTwinless(q: seq<Request>, k: nat, unit: Unit)
    requires k <= |q|
    ensures var r := MergeFrom(q, k, unit); TwinlessUpTo(r, |r|, unit) <==> TwinlessUpTo(q, k, unit) && TwinsFound(q, unit)
    decreases |q| - k
  {
    hide Collision, MergeInto, MarkChecked, TwinlessUpTo, TwinsFound;
    if k < |q| {
      var f := Collision(q, k, q[k], unit);
      if f < k {
        MergeTwinless(MergeInto(q, f, k), k, unit);
        MergedTwinless(q, f, k, unit);
      } else {
        MergeTwinless(MarkChecked(q, k), k + 1, unit);
        MarkedTwinless(q, k, unit);
        KeptTwinless(q, k, unit);
      }
    } else {
      WholeTwinless(q, unit);
    }
  }

  lemma {:induction false} MergedTwinless(q: seq<Request>, f: nat, k: nat, unit: Unit)
    requires f < k < |q| && f == Collision(q, k, q[k], unit)
    ensures var r := MergeInto(q, f, k);
            (TwinlessUpTo(r, k, unit) <==> TwinlessUpTo(q, k, unit)) && (TwinsFound(r, unit) <==> TwinsFound(q, unit))
  {
    hide TwinsFound, Same;
    var r := MergeInto(q, f, k);
    MergeIntoKeys(q, f, k);
    EraseFound(q, f, k, unit);
    KeysFound(r, Erase(q, k), unit);
    PrefixTwinless(q, r, k, unit);
    PrefixTwinless(r, q, k, unit);
  }

  lemma {:induction false} MarkedTwinless(q: seq<Request>, k: nat, unit: Unit)
    requires k < |q|
    ensures var r := MarkChecked(q, k);
            (TwinlessUpTo(r, k + 1, unit) <==> TwinlessUpTo(q, k + 1, unit)) && (TwinsFound(r, unit) <==> TwinsFound(q, unit))
  {
    hide TwinsFound, Same;
    var r := MarkChecked(q, k);
    KeysFound(q, r, unit);
    PrefixTwinless(q, r, k + 1, unit);
    PrefixTwinless(r, q, k + 1, unit);
  }

  lemma {:induction false} KeysFound(x: seq<Request>, y: seq<Request>, unit: Unit)
    requires SameKeys(x, y)
    ensures TwinsFound(x, unit) <==> TwinsFound(y, unit)
  {
    if TwinsFound(x, unit) { SameKeysFound(x, y, unit); }
    if TwinsFound(y, unit) { SameKeysFound(y, x, unit); }
  }

  lemma {:induction false} PrefixTwinless(q: seq<Request>, r: seq<Request>, k: nat, unit: Unit)
    requires k <= |q| && k <= |r|
    requires forall i :: 0 <= i < k ==> r[i].addr == q[i].addr && r[i].translated == q[i].translated
    ensures TwinlessUpTo(q, k, unit) ==> TwinlessUpTo(r, k, unit)
  {
    if TwinlessUpTo(q, k, unit) {
      forall i, j | 0 <= i < j < k ensures !Twins(r[i], r[j], unit) { assert !Twins(q[i], q[j], unit); }
    }
  }

  lemma {:induction false} WholeTwinless(q: seq<Request>, unit: Unit)
    ensures TwinlessUpTo(q, |q|, unit) ==> TwinsFound(q, unit)
  {
  }

  // The requests that no write of the same channel answers.
  function Unforwarded(wq: seq<Request>, q: seq<Request>, unit: Unit): (r: seq<Request>)
    ensures |r| <= |q|
  {
    if q == [] then []
    else (if Collision(wq, |wq|, q[0], unit) < |wq| then [] else [q[0]]) + Unforwarded(wq, q[1..], unit)
  }

  // Forwarding and merging in one loop is forwarding first and then merging.
  lemma {:induction false} ReadsForwardThenMerge(wq: seq<Request>, r: Read, k: nat, writeUnit: Unit, readUnit: Unit, to: nat)
    requires k <= |r.q|
    ensures ReadFrom(wq, r, k, writeUnit, readUnit, to).q
         == MergeFrom(r.q[..k] + Unforwarded(wq, r.q[k..], writeUnit), k, readUnit)
    decreases |r.q| - k
  {
    hide Collision, MergeInto, MarkChecked, Erase, Unforwarded;
    if k == |r.q| {
      NoneUnforwarded(wq, r.q, writeUnit);
    } else {
      var x := r.q[k];
      var f := Collision(r.q, k, x, readUnit);
      var rest := Unforwarded(wq, r.q[k + 1..], writeUnit);
      TailUnforwarded(wq, r.q, k, writeUnit);
      if Collision(wq, |wq|, x, writeUnit) < |wq| {
        ReadsForwardThenMerge(wq, Read(Erase(r.q, k), r.out + Forward(x, to)), k, writeUnit, readUnit, to);
      } else {
        var u := r.q[..k] + [x] + rest;
        PrefixCollision(r.q, u, k, x, readUnit);
        if f < k {
          ReadsForwardThenMerge(wq, Read(MergeInto(r.q, f, k), r.out), k, writeUnit, readUnit, to);
          MergeSplit(r.q, f, k, rest);
        } else {
          ReadsForwardThenMerge(wq, Read(MarkChecked(r.q, k), r.out), k + 1, writeUnit, readUnit, to);
          MarkSplit(r.q, k, rest);
        }
      }
    }
  }

  lemma {:induction false} NoneUnforwarded(wq: seq<Request>, q: seq<Request>, unit: Unit)
    ensures q[..|q|] + Unforwarded(wq, q[|q|..], unit) == q
  {
  }

  lemma {:induction false} TailUnforwarded(wq: seq<Request>, q: seq<Request>, k: nat, unit: Unit)
    requires k < |q|
    ensures var rest := Unforwarded(wq, q[k + 1..], unit);
            q[..k] + Unforwarded(wq, q[k..], unit)
              == if Collision(wq, |wq|, q[k], unit) < |wq| then q[..k] + rest else q[..k] + [q[k]] + rest
    ensures Erase(q, k)[..k] == q[..k] && Erase(q, k)[k..] == q[k + 1..]
  {
    assert q[k..][1..] == q[k + 1..];
  }

  lemma {:induction false} MergeSplit(q: seq<Request>, f: nat, k: nat, rest: seq<Request>)
    requires f < k < |q|
    ensures var m := MergeInto(q, f, k);
            m[k..] == q[k + 1..] && MergeInto(q[..k] + [q[k]] + rest, f, k) == m[..k] + rest
  {
  }

  lemma {:induction false} MarkSplit(q: seq<Request>, k: nat, rest: seq<Request>)
    requires k < |q|
    ensures var m := MarkChecked(q, k);
            m[k + 1..] == q[k + 1..] && MarkChecked(q[..k] + [q[k]] + rest, k) == m[..k + 1] + rest
  {
  }

  lemma {:induction false} PrefixCollision(q: seq<Request>, u: seq<Request>, k: nat, x: Request, unit: Unit)
    requires k <= |q| && k <= |u| && forall i :: 0 <= i < k ==> u[i] == q[i]
    ensures Collision(u, k, x, unit) == Collision(q, k, x, unit)
  {
    var f := FindAddr(q, k, x.addr, unit);
    if f < k { FindIs(u, k, x.addr, unit, f); }
  }

  // What is left of a queue once the writes have answered.
  function ToMerge(wq: seq<Request>, q: seq<Request>, unit: Unit): (r: seq<Request>) {
    var k := FirstUnchecked(q);
    q[..k] + Unforwarded(wq, q[k..], unit)
  }

  // One collision check leaves no twins in a queue exactly when its entries that
  // were checked before had none, and twins among those that no write answers
  // agree with the first entry of their block.
  lemma {:induction false} CheckDeduplicates(qs: Queues, block: Unit, matchOffset: bool, to: nat, out: seq<Response>)
    ensures var r := CheckCollision(qs, block, matchOffset, to, out).0;
            var unit: Unit := if matchOffset then 1 else block;
            && (TwinlessUpTo(r.wq, |r.wq|, unit) <==> TwinlessUpTo(qs.wq, FirstUnchecked(qs.wq), unit) && TwinsFound(qs.wq, unit))
            && (TwinlessUpTo(r.rq, |r.rq|, block) <==>
                  TwinlessUpTo(qs.rq, FirstUnchecked(qs.rq), block) && TwinsFound(ToMerge(r.wq, qs.rq, unit), block))
            && (TwinlessUpTo(r.pq, |r.pq|, block) <==>
                  TwinlessUpTo(qs.pq, FirstUnchecked(qs.pq), block) && TwinsFound(ToMerge(r.wq, qs.pq, unit), block))
  {
    var unit: Unit := if matchOffset then 1 else block;
    var r := CheckCollision(qs, block, matchOffset, to, out).0;
    var rq := ReadFrom(r.wq, Read(qs.rq, out), FirstUnchecked(qs.rq), unit, block, to);
    MergeTwinless(qs.wq, FirstUnchecked(qs.wq), unit);
    QueueTwinless(r.wq, Read(qs.rq, out), unit, block, to);
    QueueTwinless(r.wq, Read(qs.pq, rq.out), unit, block, to);
  }

  lemma {:induction false} QueueTwinless(wq: seq<Request>, r: Read, unit: Unit, block: Unit, to: nat)
    ensures var k := FirstUnchecked(r.q);
            var q := ReadFrom(wq, r, k, unit, block, to).q;
            TwinlessUpTo(q, |q|, block) <==> TwinlessUpTo(r.q, k, block) && TwinsFound(ToMerge(wq, r.q, unit), block)
  {
    var k := FirstUnchecked(r.q);
    var u := ToMerge(wq, r.q, unit);
    ReadsForwardThenMerge(wq, r, k, unit, block, to);
    MergeTwinless(u, k, block);
    PrefixTwinless(r.q, u, k, block);
    PrefixTwinless(u, r.q, k, block);
  }

  // With mixed flags it fails: the first match hides a second one.
  lemma {:induction false} MixedFlagsKeepDuplicates()
    ensures var x := Request(64, 64, Load, false, true, false, []);
            var y := x.(translated := true);
            MergeFrom([x, y, y], 0, 64) == [x.(checked := true), y.(checked := true), y.(checked := true)]
  {
    var x := Request(64, 64, Load, false, true, false, []);
    var y := x.(translated := true);
    var q0 := [x, y, y];
    var q1 := MarkChecked(q0, 0);
    var q2 := MarkChecked(q1, 1);
    assert FindAddr(q0, 0, 64, 64) == 0;
    assert FindAddr(q1, 1, 64, 64) == 0;
    assert FindAddr(q2, 2, 64, 64) == 0;
    assert MergeFrom(q0, 0, 64) == MergeFrom(q1, 1, 64);
    assert MergeFrom(q1, 1, 64) == MergeFrom(q2, 2, 64);
    assert MergeFrom(q2, 2, 64) == MergeFrom(MarkChecked(q2, 2), 3, 64);
  }

  // ------------------------------------------------------- the lists stay sorted

  predicate SortedDeps(q: seq<Request>) {
    forall i :: 0 <= i < |q| ==> Sorted(q[i].deps)
  }

  lemma {:induction false} MergeFromSorted(q: seq<Request>, k: nat, unit: Unit)
    requires k <= |q| && SortedDeps(q)
    ensures SortedDeps(MergeFrom(q, k, unit))
    decreases |q| - k
  {
    if k < |q| {
      var f := Collision(q, k, q[k], unit);
      if f < k {
        UnionSorted(q[f].deps, q[k].deps);
        MergeFromSorted(MergeInto(q, f, k), k, unit);
      } else {
        MergeFromSorted(MarkChecked(q, k), k + 1, unit);
      }
    }
  }

  lemma {:induction false} ReadFromSorted(wq: seq<Request>, r: Read, k: nat, writeUnit: Unit, readUnit: Unit, to: nat)
    requires k <= |r.q| && SortedDeps(r.q)
    ensures SortedDeps(ReadFrom(wq, r, k, writeUnit, readUnit, to).q)
    decreases |r.q| - k
  {
    if k < |r.q| {
      var x := r.q[k];
      var f := Collision(r.q, k, x, readUnit);
      if Collision(wq, |wq|, x, writeUnit) < |wq| {
        ReadFromSorted(wq, Read(Erase(r.q, k), r.out + Forward(x, to)), k, writeUnit, readUnit, to);
      } else if f < k {
        UnionSorted(r.q[f].deps, x.deps);
        ReadFromSorted(wq, Read(MergeInto(r.q, f, k), r.out), k, writeUnit, readUnit, to);
      } else {
        ReadFromSorted(wq, Read(MarkChecked(r.q, k), r.out), k + 1, writeUnit, readUnit, to);
      }
    }
  }
}
