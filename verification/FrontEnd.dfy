// The split front end: fetch buffer, the two buffers for instructions that need
// decoding and for those found in the decoded-instruction buffer, and the
// dispatch buffer (champsim/src/ooo_cpu.cc).
module FrontEnd {
  import opened Prelude
  import opened Pipeline

  datatype Buffers = Buffers(ifetch: seq<Instr>, dibHit: seq<Instr>, decode: seq<Instr>, dispatch: seq<Instr>)

  // ---------------------------------------------------------------- operations

  // Length of the run of fetched and ready instructions at the front, at most bw.
  function FetchedSpan(ifetch: seq<Instr>, bw: nat, now: int): (n: nat)
    ensures n <= |ifetch| && n <= bw
    ensures forall k :: 0 <= k < n ==> ifetch[k].fetchCompleted && ifetch[k].readyTime <= now
  {
    if ifetch == [] || bw == 0 || !ifetch[0].fetchCompleted || ifetch[0].readyTime > now then 0
    else 1 + FetchedSpan(ifetch[1..], bw - 1, now)
  }

  // The two halves of std::stable_partition(is_decoded), each with its new ready time.
  function Select(window: seq<Instr>, decoded: bool, readyAt: int): (r: seq<Instr>)
    ensures |r| <= |window|
  {
    if window == [] then []
    else
      var n := |window| - 1;
      Select(window[..n], decoded, readyAt)
      + if window[n].decoded == decoded then [window[n].(readyTime := readyAt)] else []
  }

  function Promote(b: Buffers, n: nat, dibAt: int, decodeAt: int): (r: Buffers)
    requires n <= |b.ifetch|
  {
    var window := b.ifetch[..n];
    Buffers(b.ifetch[n..], b.dibHit + Select(window, true, dibAt), b.decode + Select(window, false, decodeAt), b.dispatch)
  }

  // Cursor of the decode stage: how many instructions it takes from each buffer,
  // and the bandwidth left for dispatch slots and for decoders.
  datatype Cursor = Cursor(dib: nat, dec: nat, slots: nat, decoders: nat)

  predicate TakesFirst(dib: seq<Instr>, dec: seq<Instr>, c: Cursor, now: int) {
    && c.dib < |dib| && c.dec < |dec| && c.slots > 0 && c.decoders > 0
    && (if dec[c.dec].id < dib[c.dib].id then dec[c.dec] else dib[c.dib]).readyTime <= now
  }

  function TakeBoth(dib: seq<Instr>, dec: seq<Instr>, c: Cursor, now: int): (r: Cursor)
    requires c.dib <= |dib| && c.dec <= |dec|
    ensures r.dib <= |dib| && r.dec <= |dec|
    decreases c.slots
  {
    if !TakesFirst(dib, dec, c, now) then c
    else if dib[c.dib].id < dec[c.dec].id then TakeBoth(dib, dec, c.(dib := c.dib + 1, slots := c.slots - 1), now)
    else TakeBoth(dib, dec, c.(dec := c.dec + 1, slots := c.slots - 1, decoders := c.decoders - 1), now)
  }

  predicate TakesDib(dib: seq<Instr>, dec: seq<Instr>, c: Cursor, now: int) {
    && c.dib < |dib| && c.slots > 0 && dib[c.dib].readyTime <= now
    && (c.dec >= |dec| || dib[c.dib].id < dec[c.dec].id)
  }

  function TakeDib(dib: seq<Instr>, dec: seq<Instr>, c: Cursor, now: int): (r: Cursor)
    requires c.dib <= |dib| && c.dec <= |dec|
    ensures r.dib <= |dib| && r.dec <= |dec|
    decreases c.slots
  {
    if !TakesDib(dib, dec, c, now) then c
    else TakeDib(dib, dec, c.(dib := c.dib + 1, slots := c.slots - 1), now)
  }

  predicate TakesDecode(dib: seq<Instr>, dec: seq<Instr>, c: Cursor, now: int) {
    && c.dec < |dec| && c.slots > 0 && c.decoders > 0 && dec[c.dec].readyTime <= now
    && (c.dib >= |dib| || dec[c.dec].id < dib[c.dib].id)
  }

  function TakeDecode(dib: seq<Instr>, dec: seq<Instr>, c: Cursor, now: int): (r: Cursor)
    requires c.dib <= |dib| && c.dec <= |dec|
    ensures r.dib <= |dib| && r.dec <= |dec|
    decreases c.slots
  {
    if !TakesDecode(dib, dec, c, now) then c
    else TakeDecode(dib, dec, c.(dec := c.dec + 1, slots := c.slots - 1, decoders := c.decoders - 1), now)
  }

  function DecodeCursor(b: Buffers, slots: nat, decoders: nat, now: int): (r: Cursor)
    ensures r.dib <= |b.dibHit| && r.dec <= |b.decode|
  {
    var c1 := TakeBoth(b.dibHit, b.decode, Cursor(0, 0, slots, decoders), now);
    var c2 := TakeDib(b.dibHit, b.decode, c1, now);
    TakeDecode(b.dibHit, b.decode, c2, now)
  }

  function SetReady(xs: seq<Instr>, at: int): (r: seq<Instr>)
    ensures |r| == |xs| && forall i :: 0 <= i < |xs| ==> r[i] == xs[i].(readyTime := at)
  {
    if xs == [] then [] else SetReady(xs[..|xs| - 1], at) + [xs[|xs| - 1].(readyTime := at)]
  }

  // std::merge by program order.
  function Merge(x: seq<Instr>, y: seq<Instr>): (r: seq<Instr>)
    ensures |r| == |x| + |y|
  {
    if x == [] then y
    else if y == [] then x
    else if y[0].id < x[0].id then [y[0]] + Merge(x, y[1..])
    else [x[0]] + Merge(x[1..], y)
  }

  function Decode(b: Buffers, c: Cursor, at: int): (r: Buffers)
    requires c.dib <= |b.dibHit| && c.dec <= |b.decode|
  {
    Buffers(b.ifetch, b.dibHit[c.dib..], b.decode[c.dec..],
            b.dispatch + Merge(SetReady(b.dibHit[..c.dib], at), SetReady(b.decode[..c.dec], at)))
  }

  // What DIB lookups and L1I responses do to the fetch buffer.
  function MarkFetched(ifetch: seq<Instr>, dibHits: set<nat>, returned: set<nat>, now: int): (r: seq<Instr>)
    ensures |r| == |ifetch|
    ensures forall i :: 0 <= i < |ifetch| ==>
              r[i] == ifetch[i].(fetchCompleted := r[i].fetchCompleted, decoded := r[i].decoded, readyTime := r[i].readyTime)
  {
    if ifetch == [] then []
    else
      var n := |ifetch| - 1;
      var x := ifetch[n];
      var y := if x.id in returned then x.(fetchCompleted := true) else x;
      MarkFetched(ifetch[..n], dibHits, returned, now)
      + [if x.id in dibHits then y.(fetchCompleted := true, decoded := true, readyTime := now) else y]
  }

  // ------------------------------------------------------------ program order

  predicate Apart(x: seq<Instr>, y: seq<Instr>) {
    forall i, j :: 0 <= i < |x| && 0 <= j < |y| ==> x[i].id != y[j].id
  }

  predicate Before(x: seq<Instr>, y: seq<Instr>) {
    forall i, j :: 0 <= i < |x| && 0 <= j < |y| ==> x[i].id < y[j].id
  }

  // Everything in the front end in program order, oldest first.
  function Order(b: Buffers): seq<Instr> {
    b.dispatch + Merge(b.dibHit, b.decode) + b.ifetch
  }

  lemma {:induction false} MergeContains(x: seq<Instr>, y: seq<Instr>)
    ensures forall i :: 0 <= i < |x| ==> x[i] in Merge(x, y)
    ensures forall j :: 0 <= j < |y| ==> y[j] in Merge(x, y)
  {
    if x != [] && y != [] {
      if y[0].id < x[0].id { MergeContains(x, y[1..]); } else { MergeContains(x[1..], y); }
    }
  }

  predicate Below(h: Instr, xs: seq<Instr>) {
    forall i :: 0 <= i < |xs| ==> h.id < xs[i].id
  }

  lemma {:induction false} SortedUncons(xs: seq<Instr>)
    requires SortedIds(xs) && xs != []
    ensures SortedIds(xs[1..]) && Below(xs[0], xs[1..])
  {
    assert xs == [xs[0]] + xs[1..];
    SortedTail([xs[0]], xs[1..]);
  }

  lemma {:induction false} SortedCons(xs: seq<Instr>)
    requires xs != [] && SortedIds(xs[1..]) && Below(xs[0], xs[1..])
    ensures SortedIds(xs)
  {
    forall i, j | 0 <= i < j < |xs| ensures xs[i].id < xs[j].id {
      assert xs[j] == xs[1..][j - 1];
      if i > 0 { assert xs[i] == xs[1..][i - 1]; }
    }
  }

  lemma {:induction false} MergeBelow(h: Instr, x: seq<Instr>, y: seq<Instr>)
    requires Below(h, Merge(x, y))
    ensures Below(h, x) && Below(h, y)
  {
    MergeContains(x, y);
  }

  lemma {:induction false} ApartCons(x: seq<Instr>, y: seq<Instr>)
    requires y != [] && Below(y[0], x) && Apart(x, y[1..])
    ensures Apart(x, y) && Apart(y, x)
  {
    forall i, j | 0 <= i < |x| && 0 <= j < |y| ensures x[i].id != y[j].id {
      if j > 0 { assert y[j] == y[1..][j - 1]; }
    }
  }

  // A merge that comes out sorted had sorted inputs with no id in common.
  lemma {:induction false} MergeSortedParts(x: seq<Instr>, y: seq<Instr>)
    requires SortedIds(Merge(x, y))
    ensures SortedIds(x) && SortedIds(y) && Apart(x, y)
  {
    if x != [] && y != [] {
      var m := Merge(x, y);
      SortedUncons(m);
      if y[0].id < x[0].id {
        assert m[1..] == Merge(x, y[1..]);
        MergeSortedParts(x, y[1..]);
        MergeBelow(y[0], x, y[1..]);
        SortedCons(y);
        ApartCons(x, y);
      } else {
        assert m[1..] == Merge(x[1..], y);
        MergeSortedParts(x[1..], y);
        MergeBelow(x[0], x[1..], y);
        SortedCons(x);
        ApartCons(y, x);
      }
    }
  }

  // Everything before the cut precedes everything after it in the other input.
  predicate Cut(x: seq<Instr>, y: seq<Instr>, i: nat, j: nat)
    requires i <= |x| && j <= |y|
  {
    && (forall a, b :: 0 <= a < i && j <= b < |y| ==> x[a].id < y[b].id)
    && (forall a, b :: i <= a < |x| && 0 <= b < j ==> y[b].id < x[a].id)
  }

  lemma {:induction false} CutTail(x: seq<Instr>, y: seq<Instr>, i: nat, j: nat)
    requires i <= |x| && j <= |y| && Cut(x, y, i, j)
    ensures i > 0 ==> Cut(x[1..], y, i - 1, j)
    ensures j > 0 ==> Cut(x, y[1..], i, j - 1)
  {
  }

  lemma {:induction false} MergeHeadY(x: seq<Instr>, y: seq<Instr>)
    requires y != [] && (x == [] || y[0].id < x[0].id)
    ensures Merge(x, y) == [y[0]] + Merge(x, y[1..])
  {
  }

  lemma {:induction false} MergeHeadX(x: seq<Instr>, y: seq<Instr>)
    requires x != [] && (y == [] || !(y[0].id < x[0].id))
    ensures Merge(x, y) == [x[0]] + Merge(x[1..], y)
  {
  }

  lemma {:induction false} Slices(x: seq<Instr>, i: nat)
    requires 0 < i <= |x|
    ensures x[1..][..i - 1] == x[..i][1..] && x[1..][i - 1..] == x[i..]
  {
  }

  // Merging may be cut anywhere along the merged order.
  lemma {:induction false} MergeCut(x: seq<Instr>, y: seq<Instr>, i: nat, j: nat)
    requires i <= |x| && j <= |y| && Cut(x, y, i, j)
    ensures Merge(x, y) == Merge(x[..i], y[..j]) + Merge(x[i..], y[j..])
    decreases i + j
  {
    CutTail(x, y, i, j);
    if i == 0 && j == 0 {
      assert x[0..] == x && y[0..] == y;
    } else if j > 0 && (i == 0 || y[0].id < x[0].id) {
      MergeCut(x, y[1..], i, j - 1);
      Slices(y, j);
      MergeHeadY(x, y);
      MergeHeadY(x[..i], y[..j]);
      ConcatAssoc([y[0]], Merge(x[..i], y[..j][1..]), Merge(x[i..], y[j..]));
    } else {
      MergeCut(x[1..], y, i - 1, j);
      Slices(x, i);
      MergeHeadX(x, y);
      MergeHeadX(x[..i], y[..j]);
      ConcatAssoc([x[0]], Merge(x[..i][1..], y[..j]), Merge(x[i..], y[j..]));
    }
  }

  // Merging looks at ids only.
  lemma {:induction false} MergeProgram(x: seq<Instr>, x': seq<Instr>, y: seq<Instr>, y': seq<Instr>)
    requires Program(x) == Program(x') && Program(y) == Program(y')
    ensures Program(Merge(x, y)) == Program(Merge(x', y'))
  {
    assert |x| == |Program(x)| == |x'| && |y| == |Program(y)| == |y'|;
    if x != [] && y != [] {
      assert OpOf(x[0]) == Program(x)[0] == OpOf(x'[0]) && OpOf(y[0]) == Program(y)[0] == OpOf(y'[0]);
      if y[0].id < x[0].id {
        ProgramTail(y, y');
        MergeProgram(x, x', y[1..], y'[1..]);
        ProgramHead(Merge(x, y), y[0], Merge(x, y[1..]));
        ProgramHead(Merge(x', y'), y'[0], Merge(x', y'[1..]));
      } else {
        ProgramTail(x, x');
        MergeProgram(x[1..], x'[1..], y, y');
        ProgramHead(Merge(x, y), x[0], Merge(x[1..], y));
        ProgramHead(Merge(x', y'), x'[0], Merge(x'[1..], y'));
      }
    }
  }

  lemma {:induction false} ProgramTail(x: seq<Instr>, x': seq<Instr>)
    requires Program(x) == Program(x') && x != [] && |x'| == |x|
    ensures Program(x[1..]) == Program(x'[1..])
  {
    forall i | 0 <= i < |x| - 1 ensures OpOf(x[1..][i]) == OpOf(x'[1..][i]) {
      assert Program(x)[i + 1] == Program(x')[i + 1];
    }
  }

  lemma {:induction false} ProgramHead(z: seq<Instr>, e: Instr, t: seq<Instr>)
    requires z == [e] + t
    ensures Program(z) == [OpOf(e)] + Program(t)
  {
  }

  lemma {:induction false} ProgramConcat(x: seq<Instr>, y: seq<Instr>)
    ensures Program(x + y) == Program(x) + Program(y)
  {
  }

  // ------------------------------------------------------------------- decode

  predicate Bounded(x: seq<Instr>, y: seq<Instr>, c: Cursor, slots: nat) {
    c.dib <= |x| && c.dec <= |y| && Cut(x, y, c.dib, c.dec) && c.dib + c.dec + c.slots == slots
  }

  // Taking the smaller of the two heads keeps the taken part below the rest.
  lemma {:induction false} CutAdvances(x: seq<Instr>, y: seq<Instr>, i: nat, j: nat)
    requires SortedIds(x) && SortedIds(y) && i < |x| && j < |y| && Cut(x, y, i, j)
    ensures x[i].id < y[j].id ==> Cut(x, y, i + 1, j)
    ensures y[j].id < x[i].id ==> Cut(x, y, i, j + 1)
  {
  }

  lemma {:induction false} TakeBothCut(x: seq<Instr>, y: seq<Instr>, c: Cursor, now: int, slots: nat)
    requires SortedIds(x) && SortedIds(y) && Apart(x, y) && Bounded(x, y, c, slots)
    ensures Bounded(x, y, TakeBoth(x, y, c, now), slots)
    decreases c.slots
  {
    hide SortedIds, Cut;
    if TakesFirst(x, y, c, now) {
      CutAdvances(x, y, c.dib, c.dec);
      if x[c.dib].id < y[c.dec].id {
        TakeBothCut(x, y, c.(dib := c.dib + 1, slots := c.slots - 1), now, slots);
      } else {
        TakeBothCut(x, y, c.(dec := c.dec + 1, slots := c.slots - 1, decoders := c.decoders - 1), now, slots);
      }
    }
  }

  lemma {:induction false} TakeDibCut(x: seq<Instr>, y: seq<Instr>, c: Cursor, now: int, slots: nat)
    requires SortedIds(x) && SortedIds(y) && Apart(x, y) && Bounded(x, y, c, slots)
    ensures Bounded(x, y, TakeDib(x, y, c, now), slots)
    decreases c.slots
  {
    if TakesDib(x, y, c, now) { TakeDibCut(x, y, c.(dib := c.dib + 1, slots := c.slots - 1), now, slots); }
  }

  lemma {:induction false} TakeDecodeCut(x: seq<Instr>, y: seq<Instr>, c: Cursor, now: int, slots: nat)
    requires SortedIds(x) && SortedIds(y) && Apart(x, y) && Bounded(x, y, c, slots)
    ensures Bounded(x, y, TakeDecode(x, y, c, now), slots)
    decreases c.slots
  {
    if TakesDecode(x, y, c, now) {
      TakeDecodeCut(x, y, c.(dec := c.dec + 1, slots := c.slots - 1, decoders := c.decoders - 1), now, slots);
    }
  }

  // The three loops of decode_instruction take a prefix of the merged order,
  // never more than there is room for.
  lemma {:induction false} DecodeTakesPrefix(b: Buffers, slots: nat, decoders: nat, now: int)
    requires SortedIds(Merge(b.dibHit, b.decode))
    ensures var c := DecodeCursor(b, slots, decoders, now);
            && c.dib + c.dec <= slots
            && Cut(b.dibHit, b.decode, c.dib, c.dec)
            && Merge(b.dibHit, b.decode) ==
               Merge(b.dibHit[..c.dib], b.decode[..c.dec]) + Merge(b.dibHit[c.dib..], b.decode[c.dec..])
  {
    var x, y := b.dibHit, b.decode;
    MergeSortedParts(x, y);
    var c0 := Cursor(0, 0, slots, decoders);
    TakeBothCut(x, y, c0, now, slots);
    TakeDibCut(x, y, TakeBoth(x, y, c0, now), now, slots);
    TakeDecodeCut(x, y, TakeDib(x, y, TakeBoth(x, y, c0, now), now), now, slots);
    var c := DecodeCursor(b, slots, decoders, now);
    MergeCut(x, y, c.dib, c.dec);
  }

  lemma {:induction false} OrderSplits(b: Buffers)
    requires SortedIds(Order(b))
    ensures SortedIds(Merge(b.dibHit, b.decode)) && SortedIds(b.ifetch)
    ensures Before(Merge(b.dibHit, b.decode), b.ifetch)
  {
    var m, o := Merge(b.dibHit, b.decode), Order(b);
    forall i, j | 0 <= i < j < |m| ensures m[i].id < m[j].id {
      assert o[|b.dispatch| + i].id < o[|b.dispatch| + j].id;
    }
    SortedTail(b.dispatch + m, b.ifetch);
    forall i, j | 0 <= i < |m| && 0 <= j < |b.ifetch| ensures m[i].id < b.ifetch[j].id {
      assert o[|b.dispatch| + i].id < o[|b.dispatch| + |m| + j].id;
    }
  }

  lemma {:induction false} ProgramOrder(b: Buffers)
    ensures Program(Order(b)) == Program(b.dispatch) + Program(Merge(b.dibHit, b.decode)) + Program(b.ifetch)
  {
    ProgramConcat(b.dispatch, Merge(b.dibHit, b.decode));
    ProgramConcat(b.dispatch + Merge(b.dibHit, b.decode), b.ifetch);
  }

  lemma {:induction false} DecodeKeepsOrder(b: Buffers, slots: nat, decoders: nat, now: int, at: int)
    requires SortedIds(Order(b))
    ensures var c := DecodeCursor(b, slots, decoders, now);
            && Program(Order(Decode(b, c, at))) == Program(Order(b))
            && |Decode(b, c, at).dispatch| <= |b.dispatch| + slots
  {
    OrderSplits(b);
    DecodeTakesPrefix(b, slots, decoders, now);
    DecodeAtCut(b, DecodeCursor(b, slots, decoders, now), at);
  }

  lemma {:induction false} DecodeAtCut(b: Buffers, c: Cursor, at: int)
    requires c.dib <= |b.dibHit| && c.dec <= |b.decode|
    requires Merge(b.dibHit, b.decode) ==
             Merge(b.dibHit[..c.dib], b.decode[..c.dec]) + Merge(b.dibHit[c.dib..], b.decode[c.dec..])
    ensures Program(Order(Decode(b, c, at))) == Program(Order(b))
  {
    var x, y := b.dibHit[..c.dib], b.decode[..c.dec];
    var taken, rest := Merge(SetReady(x, at), SetReady(y, at)), Merge(b.dibHit[c.dib..], b.decode[c.dec..]);
    MergeProgram(SetReady(x, at), x, SetReady(y, at), y);
    ProgramOrder(b);
    ProgramOrder(Decode(b, c, at));
    ProgramConcat(b.dispatch, taken);
    ProgramConcat(Merge(x, y), rest);
    ConcatAssoc(Program(b.dispatch), Program(taken), Program(rest));
  }

  // ------------------------------------------------------------------- promote

  predicate SubsetIds(x: seq<Instr>, w: seq<Instr>) {
    forall i :: 0 <= i < |x| ==> exists j :: 0 <= j < |w| && w[j].id == x[i].id
  }

  lemma {:induction false} SelectSubset(w: seq<Instr>, decoded: bool, at: int)
    ensures SubsetIds(Select(w, decoded, at), w)
  {
    if w != [] {
      var n := |w| - 1;
      SelectSubset(w[..n], decoded, at);
      var s := Select(w, decoded, at);
      forall i | 0 <= i < |s| ensures exists j :: 0 <= j < |w| && w[j].id == s[i].id {
        if i < |Select(w[..n], decoded, at)| {
          var j :| 0 <= j < n && w[..n][j].id == s[i].id;
          assert w[j].id == s[i].id;
        } else {
          assert w[n].id == s[i].id;
        }
      }
    }
  }

  // Elements younger than everything merged so far merge after it.
  lemma {:induction false} MergeAppend(x: seq<Instr>, y: seq<Instr>, u: seq<Instr>, v: seq<Instr>)
    requires Before(x, v) && Before(y, u)
    ensures Merge(x + u, y + v) == Merge(x, y) + Merge(u, v)
  {
    MergeCut(x + u, y + v, |x|, |y|);
    assert (x + u)[..|x|] == x && (x + u)[|x|..] == u && (y + v)[..|y|] == y && (y + v)[|y|..] == v;
  }

  lemma {:induction false} SelectLast(w: seq<Instr>, dibAt: int, decodeAt: int, u: seq<Instr>, v: seq<Instr>)
    requires w != []
    requires var e := w[|w| - 1];
             && u == (if e.decoded then [e.(readyTime := dibAt)] else [])
             && v == (if e.decoded then [] else [e.(readyTime := decodeAt)])
    ensures Select(w, true, dibAt) == Select(w[..|w| - 1], true, dibAt) + u
    ensures Select(w, false, decodeAt) == Select(w[..|w| - 1], false, decodeAt) + v
    ensures Program(w) == Program(w[..|w| - 1]) + Program(Merge(u, v))
  {
    assert Program(Merge(u, v)) == [OpOf(w[|w| - 1])];
  }

  // Splitting a window in two and merging it back restores its order.
  lemma {:induction false} SelectMerge(w: seq<Instr>, dibAt: int, decodeAt: int)
    requires SortedIds(w)
    ensures Program(Merge(Select(w, true, dibAt), Select(w, false, decodeAt))) == Program(w)
  {
    if w != [] {
      var n := |w| - 1;
      var p, e := w[..n], w[n];
      SelectMerge(p, dibAt, decodeAt);
      var x, y := Select(p, true, dibAt), Select(p, false, decodeAt);
      var u := if e.decoded then [e.(readyTime := dibAt)] else [];
      var v := if e.decoded then [] else [e.(readyTime := decodeAt)];
      SelectBefore(p, e, true, dibAt, v);
      SelectBefore(p, e, false, decodeAt, u);
      MergeAppend(x, y, u, v);
      ProgramConcat(Merge(x, y), Merge(u, v));
      SelectLast(w, dibAt, decodeAt, u, v);
    }
  }

  lemma {:induction false} SelectBefore(p: seq<Instr>, e: Instr, decoded: bool, at: int, u: seq<Instr>)
    requires (forall i :: 0 <= i < |p| ==> p[i].id < e.id) && (forall i :: 0 <= i < |u| ==> u[i].id == e.id)
    ensures Before(Select(p, decoded, at), u)
  {
    SelectSubset(p, decoded, at);
    var s := Select(p, decoded, at);
    forall i, j | 0 <= i < |s| && 0 <= j < |u| ensures s[i].id < u[j].id {
      var k :| 0 <= k < |p| && p[k].id == s[i].id;
    }
  }

  lemma {:induction false} PromoteKeepsOrder(b: Buffers, n: nat, dibAt: int, decodeAt: int)
    requires SortedIds(Order(b)) && n <= |b.ifetch|
    ensures Program(Order(Promote(b, n, dibAt, decodeAt))) == Program(Order(b))
  {
    OrderSplits(b);
    var w, x, y := b.ifetch[..n], b.dibHit, b.decode;
    var u, v := Select(w, true, dibAt), Select(w, false, decodeAt);
    SelectSubset(w, true, dibAt);
    SelectSubset(w, false, decodeAt);
    BeforeSubset(x, y, v, w);
    BeforeSubset(x, y, u, w);
    MergeAppend(x, y, u, v);
    SelectMerge(w, dibAt, decodeAt);
    ProgramOrder(b);
    ProgramOrder(Promote(b, n, dibAt, decodeAt));
    ProgramConcat(Merge(x, y), Merge(u, v));
    ProgramSplit(b.ifetch, n);
    Regroup(Program(b.dispatch), Program(Merge(x, y)), Program(w), Program(b.ifetch[n..]));
  }

  lemma {:induction false} ProgramSplit(xs: seq<Instr>, n: nat)
    requires n <= |xs|
    ensures Program(xs) == Program(xs[..n]) + Program(xs[n..])
  {
    assert xs == xs[..n] + xs[n..];
    ProgramConcat(xs[..n], xs[n..]);
  }

  lemma {:induction false} Regroup<T>(a: seq<T>, b: seq<T>, c: seq<T>, d: seq<T>)
    ensures a + (b + c) + d == a + b + (c + d)
  {
  }

  lemma {:induction false} BeforeSubset(x: seq<Instr>, y: seq<Instr>, u: seq<Instr>, w: seq<Instr>)
    requires Before(Merge(x, y), w) && SubsetIds(u, w)
    ensures Before(x, u) && Before(y, u)
  {
    MergeContains(x, y);
    forall i, j | 0 <= j < |u| ensures (0 <= i < |x| ==> x[i].id < u[j].id) && (0 <= i < |y| ==> y[i].id < u[j].id) {
      var k :| 0 <= k < |w| && w[k].id == u[j].id;
    }
  }

  lemma {:induction false} SelectSizes(w: seq<Instr>, dibAt: int, decodeAt: int)
    ensures |Select(w, true, dibAt)| + |Select(w, false, decodeAt)| == |w|
  {
    if w != [] { SelectSizes(w[..|w| - 1], dibAt, decodeAt); }
  }
}
