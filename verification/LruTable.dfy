// A set-associative table with timestamps (champsim/inc/msl/lru_table.h),
// and the recency lists that it implements.
module LruTable {
  import opened Prelude
  import opened Bits
  import opened FlatSets

  // What the two projections make of an element, and the element's own content.
  datatype Value = Value(index: int, tag: int, payload: int)

  // A way of the table; lastUsed == 0 marks an empty one.
  datatype Block = Block(lastUsed: nat, data: Value)

  type Ways = seq<Block>

  predicate Used(b: Block) {
    b.lastUsed > 0
  }

  // A default-constructed block.
  function Blank(empty: Value): Block {
    Block(0, empty)
  }

  // ------------------------------------------------------------ one set: code

  // std::find_if with match_func.
  function FindTag(ws: Ways, tag: int): (h: nat)
    ensures h <= |ws|
    ensures h < |ws| ==> Used(ws[h]) && ws[h].data.tag == tag
    ensures forall k :: 0 <= k < h ==> !(Used(ws[k]) && ws[k].data.tag == tag)
  {
    if ws == [] || (Used(ws[0]) && ws[0].data.tag == tag) then 0 else 1 + FindTag(ws[1..], tag)
  }

  // match_and_check: the comparator of fill. It holds of any two empty blocks,
  // so it is not a strict weak order.
  predicate Precedes(x: Block, y: Block, tag: int) {
    !Used(x) ||
    (Used(y) && ((x.data.tag != tag && y.data.tag == tag)
                 || ((x.data.tag == tag) == (y.data.tag == tag) && x.lastUsed < y.lastUsed)))
  }

  // std::minmax_element from position i on, two elements at a time.
  function MinMaxFrom(ws: Ways, tag: int, lo: nat, hi: nat, i: nat): (r: (nat, nat))
    requires lo < i <= |ws| && hi < i
    ensures r.0 < |ws| && r.1 < |ws|
    decreases |ws| - i
  {
    if i == |ws| then (lo, hi)
    else if i + 1 == |ws| then
      if Precedes(ws[i], ws[lo], tag) then (i, hi)
      else if !Precedes(ws[i], ws[hi], tag) then (lo, i)
      else (lo, hi)
    else
      var (small, large) := if Precedes(ws[i + 1], ws[i], tag) then (i + 1, i) else (i, i + 1);
      MinMaxFrom(ws, tag, if Precedes(ws[small], ws[lo], tag) then small else lo,
                 if !Precedes(ws[large], ws[hi], tag) then large else hi, i + 2)
  }

  function MinMax(ws: Ways, tag: int): (r: (nat, nat))
    requires ws != []
    ensures r.0 < |ws| && r.1 < |ws|
  {
    if |ws| == 1 then (0, 0)
    else if Precedes(ws[1], ws[0], tag) then MinMaxFrom(ws, tag, 1, 0, 2)
    else MinMaxFrom(ws, tag, 0, 1, 2)
  }

  function HitIn(ws: Ways, v: Value, now: nat): (r: (Ways, Option<Value>))
    ensures |r.0| == |ws|
  {
    var h := FindTag(ws, v.tag);
    if h == |ws| then (ws, None) else (ws[h := ws[h].(lastUsed := now)], Some(ws[h].data))
  }

  function FillIn(ws: Ways, v: Value, now: nat): (r: Ways)
    ensures |r| == |ws|
  {
    if ws == [] then ws
    else
      var (miss, hit) := MinMax(ws, v.tag);
      if ws[hit].data.tag == v.tag then ws[hit := Block(now, v)] else ws[miss := Block(now, v)]
  }

  function InvalidateIn(ws: Ways, v: Value, empty: Value): (r: (Ways, Option<Value>))
    ensures |r.0| == |ws|
  {
    var h := FindTag(ws, v.tag);
    if h == |ws| then (ws, None) else (ws[h := Blank(empty)], Some(ws[h].data))
  }

  // ------------------------------------------------- one set: specification

  // Position of the used block stamped t, |ws| if there is none.
  function FindStamp(ws: Ways, t: nat): (h: nat)
    ensures h <= |ws|
    ensures h < |ws| ==> ws[h].lastUsed == t
    ensures forall k :: 0 <= k < h ==> ws[k].lastUsed != t
  {
    if ws == [] || ws[0].lastUsed == t then 0 else 1 + FindStamp(ws[1..], t)
  }

  // The contents of the blocks stamped 1 to t, most recently used first.
  function Recency(ws: Ways, t: nat): seq<Value> {
    if t == 0 then []
    else
      var h := FindStamp(ws, t);
      if h < |ws| then [ws[h].data] + Recency(ws, t - 1) else Recency(ws, t - 1)
  }

  function FindIn(list: seq<Value>, tag: int): (v: Option<Value>)
    ensures v.Some? ==> v.value in list && v.value.tag == tag
    ensures v.None? <==> forall k :: 0 <= k < |list| ==> list[k].tag != tag
  {
    if list == [] then None
    else if list[0].tag == tag then Some(list[0])
    else FindIn(list[1..], tag)
  }

  function Without(list: seq<Value>, tag: int): (r: seq<Value>)
    ensures |r| <= |list|
    ensures (forall k :: 0 <= k < |list| ==> list[k].tag != tag) ==> r == list
  {
    if list == [] then []
    else if list[0].tag == tag then Without(list[1..], tag)
    else [list[0]] + Without(list[1..], tag)
  }

  function MoveToFront(list: seq<Value>, tag: int): (r: seq<Value>) {
    match FindIn(list, tag)
    case None => list
    case Some(v) => [v] + Without(list, tag)
  }

  // Inserting at the front drops the last element of a list of `ways`.
  function InsertFront(list: seq<Value>, v: Value, ways: nat): seq<Value> {
    if ways == 0 then []
    else if FindIn(list, v.tag).Some? then [v] + Without(list, v.tag)
    else if |list| >= ways then [v] + list[..|list| - 1]
    else [v] + list
  }

  // ------------------------------------------------------- one set: invariant

  // Stamps up to `count`; the used blocks have distinct stamps and distinct tags.
  predicate Distinct(ws: Ways, count: nat) {
    && (forall k :: 0 <= k < |ws| ==> ws[k].lastUsed <= count)
    && (forall j, k :: 0 <= j < |ws| && 0 <= k < |ws| && j != k && Used(ws[j]) && Used(ws[k]) ==>
          ws[j].lastUsed != ws[k].lastUsed && ws[j].data.tag != ws[k].data.tag)
  }

  predicate InUse(ws: Ways, h: nat) {
    h < |ws| && Used(ws[h])
  }

  // Blocks that Recency(_, t) does not look at.
  predicate Beyond(b: Block, t: nat) {
    !Used(b) || b.lastUsed > t
  }

  lemma {:induction false} StampAt(ws: Ways, t: nat, f: nat)
    requires f <= |ws| && (f < |ws| ==> ws[f].lastUsed == t) && forall k :: 0 <= k < f ==> ws[k].lastUsed != t
    ensures FindStamp(ws, t) == f
  {
  }

  lemma {:induction false} StampFound(ws: Ways, count: nat, h: nat)
    requires Distinct(ws, count) && InUse(ws, h)
    ensures FindStamp(ws, ws[h].lastUsed) == h
  {
    StampAt(ws, ws[h].lastUsed, h);
  }

  lemma {:induction false} StampElsewhere(ws: Ways, h: nat, b: Block, t: nat)
    requires h < |ws| && ws[h].lastUsed != t && b.lastUsed != t
    ensures FindStamp(ws[h := b], t) == FindStamp(ws, t)
  {
    StampAt(ws[h := b], t, FindStamp(ws, t));
  }

  lemma {:induction false} StampGone(ws: Ways, count: nat, h: nat, b: Block)
    requires Distinct(ws, count) && InUse(ws, h) && b.lastUsed != ws[h].lastUsed
    ensures FindStamp(ws[h := b], ws[h].lastUsed) == |ws|
  {
    StampAt(ws[h := b], ws[h].lastUsed, |ws|);
  }

  lemma {:induction false} RecencyBeyond(ws: Ways, count: nat, t: nat)
    requires (forall k :: 0 <= k < |ws| ==> ws[k].lastUsed <= count) && count <= t
    ensures Recency(ws, t) == Recency(ws, count)
    decreases t
  {
    if count < t { RecencyBeyond(ws, count, t - 1); }
  }

  lemma {:induction false} RecencySame(ws: Ways, h: nat, b: Block, t: nat)
    requires h < |ws| && Beyond(ws[h], t) && Beyond(b, t)
    ensures Recency(ws[h := b], t) == Recency(ws, t)
  {
    if t > 0 {
      StampElsewhere(ws, h, b, t);
      RecencySame(ws, h, b, t - 1);
    }
  }

  lemma {:induction false} RecencyMember(ws: Ways, count: nat, t: nat, h: nat)
    requires Distinct(ws, count) && InUse(ws, h) && ws[h].lastUsed <= t
    ensures ws[h].data in Recency(ws, t)
  {
    if ws[h].lastUsed == t {
      StampFound(ws, count, h);
    } else {
      RecencyMember(ws, count, t - 1, h);
    }
  }

  lemma {:induction false} RecencyOrigin(ws: Ways, t: nat, k: nat)
    requires k < |Recency(ws, t)|
    ensures exists h :: 0 <= h < |ws| && InUse(ws, h) && ws[h].lastUsed <= t && ws[h].data == Recency(ws, t)[k]
  {
    var f := FindStamp(ws, t);
    if f < |ws| && k == 0 {
      assert InUse(ws, f);
    } else {
      RecencyOrigin(ws, t - 1, if f < |ws| then k - 1 else k);
    }
  }

  lemma {:induction false} RecencyTag(ws: Ways, t: nat, tag: int)
    requires forall h :: 0 <= h < |ws| && InUse(ws, h) && ws[h].lastUsed <= t ==> ws[h].data.tag != tag
    ensures forall k :: 0 <= k < |Recency(ws, t)| ==> Recency(ws, t)[k].tag != tag
  {
    forall k | 0 <= k < |Recency(ws, t)| ensures Recency(ws, t)[k].tag != tag { RecencyOrigin(ws, t, k); }
  }

  // Emptying the block of a tag, or stamping it anew, removes that tag from the list.
  lemma {:induction false} RecencyRemove(ws: Ways, count: nat, h: nat, b: Block, t: nat)
    requires Distinct(ws, count) && InUse(ws, h) && Beyond(b, t)
    ensures Recency(ws[h := b], t) == Without(Recency(ws, t), ws[h].data.tag)
    ensures ws[h].lastUsed <= t ==> |Recency(ws, t)| == |Recency(ws[h := b], t)| + 1
  {
    hide FindStamp;
    if t > 0 {
      RecencyRemove(ws, count, h, b, t - 1);
      var f, ws' := FindStamp(ws, t), ws[h := b];
      if ws[h].lastUsed == t {
        StampFound(ws, count, h);
        StampGone(ws, count, h, b);
        RecencySame(ws, h, b, t - 1);
      } else {
        StampElsewhere(ws, h, b, t);
        if f < |ws| {
          assert Used(ws[f]) && ws[f].data.tag != ws[h].data.tag;
          assert Recency(ws, t)[1..] == Recency(ws, t - 1);
        }
      }
    }
  }

  lemma {:induction false} RecencyEmpty(ws: Ways, t: nat)
    requires forall k :: 0 <= k < |ws| ==> Beyond(ws[k], t)
    ensures Recency(ws, t) == []
  {
    if t > 0 { RecencyEmpty(ws, t - 1); }
  }

  // The block with the smallest stamp is the last of the list.
  lemma {:induction false} OldestIsLast(x: Ways, y: Ways, count: nat, h: nat, t: nat)
    requires Distinct(x, count) && InUse(x, h) && x[h].lastUsed <= t && |y| == |x| && Beyond(y[h], t)
    requires forall k :: 0 <= k < |x| && k != h ==> y[k] == x[k]
    requires forall k :: 0 <= k < |x| && Used(x[k]) ==> x[h].lastUsed <= x[k].lastUsed
    ensures Recency(x, t) == Recency(y, t) + [x[h].data]
  {
    hide FindStamp;
    if t == x[h].lastUsed {
      StampFound(x, count, h);
      RecencyEmpty(x, t - 1);
      RecencyEmpty(y, t);
    } else {
      OldestIsLast(x, y, count, h, t - 1);
      var f := FindStamp(x, t);
      StampAt(y, t, f);
      if f < |x| {
        assert y[f] == x[f];
        assert [x[f].data] + (Recency(y, t - 1) + [x[h].data]) == ([x[f].data] + Recency(y, t - 1)) + [x[h].data];
      }
    }
  }

  function UsedCount(ws: Ways): (n: nat)
    ensures n <= |ws|
    ensures n == |ws| <==> forall k :: 0 <= k < |ws| ==> Used(ws[k])
  {
    if ws == [] then 0 else UsedCount(ws[..|ws| - 1]) + if Used(ws[|ws| - 1]) then 1 else 0
  }

  // The list has one element for each used block among the first n, if the rest are empty.
  lemma {:induction false} RecencyLength(ws: Ways, count: nat, n: nat)
    requires Distinct(ws, count) && n <= |ws| && forall k :: n <= k < |ws| ==> !Used(ws[k])
    ensures |Recency(ws, count)| == UsedCount(ws[..n])
    decreases n
  {
    hide Recency;
    if n == 0 {
      RecencyEmpty(ws, count);
    } else {
      var b := Blank(ws[n - 1].data);
      var ws' := ws[n - 1 := b];
      RecencyLength(ws', count, n - 1);
      assert ws'[..n - 1] == ws[..n][..n - 1];
      if Used(ws[n - 1]) {
        RecencyRemove(ws, count, n - 1, b, count);
      } else {
        RecencySame(ws, n - 1, b, count);
      }
    }
  }

  // ------------------------------------------- what the comparator's scan finds

  // Empty blocks come first, then other tags by age, then this tag by age.
  predicate AtMost(x: Block, y: Block, tag: int) {
    !Used(x) ||
    (Used(y) && ((x.data.tag != tag && y.data.tag == tag)
                 || ((x.data.tag == tag) == (y.data.tag == tag) && x.lastUsed <= y.lastUsed)))
  }

  predicate Bounds(ws: Ways, tag: int, lo: nat, hi: nat, n: nat)
    requires n <= |ws|
  {
    lo < |ws| && hi < |ws| && forall k :: 0 <= k < n ==> AtMost(ws[lo], ws[k], tag) && AtMost(ws[k], ws[hi], tag)
  }

  lemma {:induction false} AtMostTrans(x: Block, y: Block, z: Block, tag: int)
    requires AtMost(x, y, tag) && AtMost(y, z, tag)
    ensures AtMost(x, z, tag)
  {
  }

  lemma {:induction false} BoundsStep(ws: Ways, tag: int, lo: nat, hi: nat, i: nat, small: nat, large: nat)
    requires i + 2 <= |ws| && lo < i && hi < i && Bounds(ws, tag, lo, hi, i)
    requires (small, large) == if Precedes(ws[i + 1], ws[i], tag) then (i + 1, i) else (i, i + 1)
    ensures Bounds(ws, tag, if Precedes(ws[small], ws[lo], tag) then small else lo,
                   if !Precedes(ws[large], ws[hi], tag) then large else hi, i + 2)
  {
    var l := if Precedes(ws[small], ws[lo], tag) then small else lo;
    var h := if !Precedes(ws[large], ws[hi], tag) then large else hi;
    forall k | 0 <= k < i + 2 ensures AtMost(ws[l], ws[k], tag) && AtMost(ws[k], ws[h], tag) {
      assert AtMost(ws[small], ws[large], tag);
      if k < i {
        AtMostTrans(ws[l], ws[lo], ws[k], tag);
        AtMostTrans(ws[k], ws[hi], ws[h], tag);
      }
    }
  }

  lemma {:induction false} MinMaxFromBounds(ws: Ways, tag: int, lo: nat, hi: nat, i: nat)
    requires lo < i <= |ws| && hi < i && Bounds(ws, tag, lo, hi, i)
    ensures var r := MinMaxFrom(ws, tag, lo, hi, i); Bounds(ws, tag, r.0, r.1, |ws|)
    decreases |ws| - i
  {
    if i + 1 < |ws| {
      var (small, large) := if Precedes(ws[i + 1], ws[i], tag) then (i + 1, i) else (i, i + 1);
      BoundsStep(ws, tag, lo, hi, i, small, large);
      MinMaxFromBounds(ws, tag, if Precedes(ws[small], ws[lo], tag) then small else lo,
                       if !Precedes(ws[large], ws[hi], tag) then large else hi, i + 2);
    } else if i + 1 == |ws| {
      LastOne(ws, tag, lo, hi);
    }
  }

  lemma {:induction false} LastOne(ws: Ways, tag: int, lo: nat, hi: nat)
    requires |ws| > 0 && lo < |ws| - 1 && hi < |ws| - 1 && Bounds(ws, tag, lo, hi, |ws| - 1)
    ensures var r := MinMaxFrom(ws, tag, lo, hi, |ws| - 1); Bounds(ws, tag, r.0, r.1, |ws|)
  {
    var i := |ws| - 1;
    var r := MinMaxFrom(ws, tag, lo, hi, i);
    forall k | 0 <= k < |ws| ensures AtMost(ws[r.0], ws[k], tag) && AtMost(ws[k], ws[r.1], tag) {
      AtMostTrans(ws[lo], ws[0], ws[hi], tag);
      if k < i {
        AtMostTrans(ws[r.0], ws[lo], ws[k], tag);
        AtMostTrans(ws[k], ws[hi], ws[r.1], tag);
      }
    }
  }

  // Although the comparator is no strict weak order, the scan returns a least
  // and a greatest block.
  lemma {:induction false} MinMaxBounds(ws: Ways, tag: int)
    requires ws != []
    ensures var r := MinMax(ws, tag); Bounds(ws, tag, r.0, r.1, |ws|)
  {
    if |ws| > 1 {
      if Precedes(ws[1], ws[0], tag) {
        MinMaxFromBounds(ws, tag, 1, 0, 2);
      } else {
        MinMaxFromBounds(ws, tag, 0, 1, 2);
      }
    }
  }

  // -------------------------------------------------- one set: the refinement

  lemma {:induction false} ListHasTag(ws: Ways, count: nat, h: nat)
    requires Distinct(ws, count) && InUse(ws, h)
    ensures FindIn(Recency(ws, count), ws[h].data.tag) == Some(ws[h].data)
  {
    var list, tag := Recency(ws, count), ws[h].data.tag;
    RecencyMember(ws, count, count, h);
    var k :| 0 <= k < |list| && list[k] == ws[h].data;
    assert list[k].tag == tag;
    var v := FindIn(list, tag).value;
    var m :| 0 <= m < |list| && list[m] == v;
    RecencyOrigin(ws, count, m);
  }

  lemma {:induction false} ListLacksTag(ws: Ways, count: nat, tag: int)
    requires Distinct(ws, count) && forall k :: 0 <= k < |ws| ==> !(InUse(ws, k) && ws[k].data.tag == tag)
    ensures FindIn(Recency(ws, count), tag) == None && Without(Recency(ws, count), tag) == Recency(ws, count)
  {
    RecencyTag(ws, count, tag);
  }

  // A freshly stamped block heads the list.
  lemma {:induction false} NewestFirst(ws: Ways, count: nat, h: nat, v: Value)
    requires h < |ws| && forall k :: 0 <= k < |ws| ==> ws[k].lastUsed <= count
    ensures Recency(ws[h := Block(count + 1, v)], count + 1) == [v] + Recency(ws[h := Block(count + 1, v)], count)
  {
    StampAt(ws[h := Block(count + 1, v)], count + 1, h);
  }

  lemma {:induction false} StampedDistinct(ws: Ways, count: nat, h: nat, v: Value)
    requires Distinct(ws, count) && h < |ws|
    requires forall k :: 0 <= k < |ws| && k != h && Used(ws[k]) ==> ws[k].data.tag != v.tag
    ensures Distinct(ws[h := Block(count + 1, v)], count + 1)
  {
  }

  // check_hit is lookup plus move-to-front.
  lemma {:induction false} HitRefines(ws: Ways, count: nat, v: Value)
    requires Distinct(ws, count)
    ensures var (r, out) := HitIn(ws, v, count + 1);
            && Distinct(r, count + 1)
            && out == FindIn(Recency(ws, count), v.tag)
            && Recency(r, count + 1) == MoveToFront(Recency(ws, count), v.tag)
  {
    var h := FindTag(ws, v.tag);
    if h == |ws| {
      ListLacksTag(ws, count, v.tag);
      RecencyBeyond(ws, count, count + 1);
    } else {
      ListHasTag(ws, count, h);
      NewestFirst(ws, count, h, ws[h].data);
      StampedDistinct(ws, count, h, ws[h].data);
      RecencyRemove(ws, count, h, Block(count + 1, ws[h].data), count);
    }
  }

  // invalidate removes.
  lemma {:induction false} InvalidateRefines(ws: Ways, count: nat, v: Value, empty: Value)
    requires Distinct(ws, count)
    ensures var (r, out) := InvalidateIn(ws, v, empty);
            && Distinct(r, count)
            && out == FindIn(Recency(ws, count), v.tag)
            && Recency(r, count) == Without(Recency(ws, count), v.tag)
  {
    var h := FindTag(ws, v.tag);
    if h == |ws| {
      ListLacksTag(ws, count, v.tag);
    } else {
      ListHasTag(ws, count, h);
      RecencyRemove(ws, count, h, Blank(empty), count);
    }
  }

  lemma {:induction false} FillHit(ws: Ways, count: nat, v: Value, h: nat)
    requires Distinct(ws, count) && InUse(ws, h) && ws[h].data.tag == v.tag
    ensures FillIn(ws, v, count + 1) == ws[h := Block(count + 1, v)]
    ensures Recency(ws[h := Block(count + 1, v)], count + 1) == InsertFront(Recency(ws, count), v, |ws|)
  {
    MinMaxBounds(ws, v.tag);
    var (miss, hit) := MinMax(ws, v.tag);
    assert AtMost(ws[h], ws[hit], v.tag);
    ListHasTag(ws, count, h);
    NewestFirst(ws, count, h, v);
    RecencyRemove(ws, count, h, Block(count + 1, v), count);
  }

  lemma {:induction false} WholeLength(ws: Ways, count: nat)
    requires Distinct(ws, count)
    ensures |Recency(ws, count)| <= |ws|
    ensures |Recency(ws, count)| == |ws| <==> forall k :: 0 <= k < |ws| ==> Used(ws[k])
  {
    RecencyLength(ws, count, |ws|);
    assert ws[..|ws|] == ws;
  }

  lemma {:induction false} FillEmpty(ws: Ways, count: nat, v: Value, h: nat)
    requires Distinct(ws, count) && h < |ws| && !Used(ws[h])
    requires forall k :: 0 <= k < |ws| ==> !(InUse(ws, k) && ws[k].data.tag == v.tag)
    ensures Recency(ws[h := Block(count + 1, v)], count + 1) == InsertFront(Recency(ws, count), v, |ws|)
  {
    ListLacksTag(ws, count, v.tag);
    WholeLength(ws, count);
    NewestFirst(ws, count, h, v);
    RecencySame(ws, h, Block(count + 1, v), count);
  }

  lemma {:induction false} FillFull(ws: Ways, count: nat, v: Value, h: nat)
    requires Distinct(ws, count) && InUse(ws, h)
    requires forall k :: 0 <= k < |ws| ==> Used(ws[k]) && ws[h].lastUsed <= ws[k].lastUsed && ws[k].data.tag != v.tag
    ensures Recency(ws[h := Block(count + 1, v)], count + 1) == InsertFront(Recency(ws, count), v, |ws|)
  {
    ListLacksTag(ws, count, v.tag);
    WholeLength(ws, count);
    NewestFirst(ws, count, h, v);
    OldestIsLast(ws, ws[h := Block(count + 1, v)], count, h, count);
  }

  // fill inserts at the front, dropping the last element of a full set.
  lemma {:induction false} FillRefines(ws: Ways, count: nat, v: Value)
    requires Distinct(ws, count)
    ensures var r := FillIn(ws, v, count + 1);
            Distinct(r, count + 1) && Recency(r, count + 1) == InsertFront(Recency(ws, count), v, |ws|)
  {
    if ws == [] {
      RecencyEmpty(ws, count + 1);
    } else if h :| 0 <= h < |ws| && InUse(ws, h) && ws[h].data.tag == v.tag {
      FillHit(ws, count, v, h);
      StampedDistinct(ws, count, h, v);
    } else {
      MinMaxBounds(ws, v.tag);
      var (miss, hit) := MinMax(ws, v.tag);
      var h := if ws[hit].data.tag == v.tag then hit else miss;
      StampedDistinct(ws, count, h, v);
      if Used(ws[h]) {
        forall k | 0 <= k < |ws| ensures Used(ws[k]) && ws[h].lastUsed <= ws[k].lastUsed && ws[k].data.tag != v.tag {
          assert AtMost(ws[miss], ws[k], v.tag);
          assert InUse(ws, h);
        }
        FillFull(ws, count, v, h);
      } else {
        FillEmpty(ws, count, v, h);
      }
    }
  }

  predicate TagsApart(list: seq<Value>) {
    forall i, j :: 0 <= i < j < |list| ==> list[i].tag != list[j].tag
  }

  lemma {:induction false} TagsApartCons(v: Value, rest: seq<Value>)
    requires TagsApart(rest) && forall j :: 0 <= j < |rest| ==> v.tag != rest[j].tag
    ensures TagsApart([v] + rest)
  {
  }

  // A list never repeats a tag.
  lemma {:induction false} TagsDistinct(ws: Ways, count: nat, t: nat)
    requires Distinct(ws, count)
    ensures TagsApart(Recency(ws, t))
  {
    if t > 0 {
      TagsDistinct(ws, count, t - 1);
      var f, rest := FindStamp(ws, t), Recency(ws, t - 1);
      if f < |ws| {
        forall j | 0 <= j < |rest| ensures ws[f].data.tag != rest[j].tag {
          RecencyOrigin(ws, t - 1, j);
        }
        TagsApartCons(ws[f].data, rest);
      }
    }
  }

  // ------------------------------------------------------------ the whole table

  datatype Table = Table(count: nat, sets: seq<Ways>)

  datatype Op = CheckHit(v: Value) | Fill(v: Value) | Invalidate(v: Value)

  datatype Outcome = Found(found: Option<Value>) | Filled | NegativeIndex

  // A negative set index is an error that leaves the table alone.
  function Step(t: Table, op: Op, empty: Value): (r: (Table, Outcome))
    requires |t.sets| > 0
    ensures |r.0.sets| == |t.sets|
  {
    if op.v.index < 0 then (t, NegativeIndex)
    else
      var i := op.v.index % |t.sets|;
      var ws := t.sets[i];
      match op
      case CheckHit(v) =>
        var (r, out) := HitIn(ws, v, t.count + 1);
        (if out.None? then t else Table(t.count + 1, t.sets[i := r]), Found(out))
      case Fill(v) =>
        (if ws == [] then t else Table(t.count + 1, t.sets[i := FillIn(ws, v, t.count + 1)]), Filled)
      case Invalidate(v) =>
        var (r, out) := InvalidateIn(ws, v, empty);
        (Table(t.count, t.sets[i := r]), Found(out))
  }

  // The same operations on recency lists.
  function ListStep(lists: seq<seq<Value>>, ways: nat, op: Op): (r: (seq<seq<Value>>, Outcome))
    requires |lists| > 0
    ensures |r.0| == |lists|
  {
    if op.v.index < 0 then (lists, NegativeIndex)
    else
      var i := op.v.index % |lists|;
      match op
      case CheckHit(v) => (lists[i := MoveToFront(lists[i], v.tag)], Found(FindIn(lists[i], v.tag)))
      case Fill(v) => (lists[i := InsertFront(lists[i], v, ways)], Filled)
      case Invalidate(v) => (lists[i := Without(lists[i], v.tag)], Found(FindIn(lists[i], v.tag)))
  }

  predicate TableOk(t: Table, ways: nat) {
    |t.sets| > 0 && forall i :: 0 <= i < |t.sets| ==> |t.sets[i]| == ways && Distinct(t.sets[i], t.count)
  }

  // The table read as recency lists.
  function Lists(t: Table): (lists: seq<seq<Value>>)
    ensures |lists| == |t.sets| && forall i :: 0 <= i < |lists| ==> lists[i] == Recency(t.sets[i], t.count)
  {
    seq(|t.sets|, i requires 0 <= i < |t.sets| => Recency(t.sets[i], t.count))
  }

  // Changing one set, with the clock advanced or not, changes one list.
  lemma {:induction false} OneListChanges(t: Table, ways: nat, i: nat, r: Ways, count: nat, list: seq<Value>)
    requires TableOk(t, ways) && i < |t.sets| && t.count <= count <= t.count + 1
    requires |r| == ways && Distinct(r, count) && Recency(r, count) == list
    ensures var t' := Table(count, t.sets[i := r]); TableOk(t', ways) && Lists(t') == Lists(t)[i := list]
  {
    var t' := Table(count, t.sets[i := r]);
    forall k | 0 <= k < |t.sets| ensures Lists(t')[k] == Lists(t)[i := list][k] && Distinct(t'.sets[k], count) {
      if k != i { RecencyBeyond(t.sets[k], t.count, count); }
    }
  }

  ghost predicate Refines(t: Table, ways: nat, op: Op, r: (Table, Outcome)) {
    TableOk(t, ways) && TableOk(r.0, ways) && (Lists(r.0), r.1) == ListStep(Lists(t), ways, op)
  }

  lemma {:induction false} MissKeeps(t: Table, ways: nat, v: Value, empty: Value)
    requires TableOk(t, ways) && v.index >= 0 && HitIn(t.sets[v.index % |t.sets|], v, t.count + 1).1.None?
    ensures Refines(t, ways, CheckHit(v), Step(t, CheckHit(v), empty))
  {
    var i := v.index % |t.sets|;
    HitRefines(t.sets[i], t.count, v);
    assert Lists(t)[i := Lists(t)[i]] == Lists(t);
  }

  lemma {:induction false} HitMoves(t: Table, ways: nat, v: Value, empty: Value)
    requires TableOk(t, ways) && v.index >= 0 && HitIn(t.sets[v.index % |t.sets|], v, t.count + 1).1.Some?
    ensures Refines(t, ways, CheckHit(v), Step(t, CheckHit(v), empty))
  {
    hide HitIn, MoveToFront, Recency;
    var i := v.index % |t.sets|;
    var (r, out) := HitIn(t.sets[i], v, t.count + 1);
    var list := MoveToFront(Lists(t)[i], v.tag);
    HitRefines(t.sets[i], t.count, v);
    OneListChanges(t, ways, i, r, t.count + 1, list);
    assert Step(t, CheckHit(v), empty) == (Table(t.count + 1, t.sets[i := r]), Found(out));
    assert ListStep(Lists(t), ways, CheckHit(v)) == (Lists(t)[i := list], Found(out));
  }

  lemma {:induction false} CheckHitRefines(t: Table, ways: nat, v: Value, empty: Value)
    requires TableOk(t, ways) && v.index >= 0
    ensures Refines(t, ways, CheckHit(v), Step(t, CheckHit(v), empty))
  {
    if HitIn(t.sets[v.index % |t.sets|], v, t.count + 1).1.Some? {
      HitMoves(t, ways, v, empty);
    } else {
      MissKeeps(t, ways, v, empty);
    }
  }

  lemma {:induction false} FillStepRefines(t: Table, ways: nat, v: Value, empty: Value)
    requires TableOk(t, ways) && v.index >= 0
    ensures Refines(t, ways, Fill(v), Step(t, Fill(v), empty))
  {
    hide FillIn, Recency, Without, FindIn;
    var i := v.index % |t.sets|;
    var list := Lists(t)[i];
    FillRefines(t.sets[i], t.count, v);
    if t.sets[i] != [] {
      OneListChanges(t, ways, i, FillIn(t.sets[i], v, t.count + 1), t.count + 1, InsertFront(list, v, ways));
    } else {
      RecencyEmpty(t.sets[i], t.count);
      assert Lists(t)[i := list] == Lists(t);
    }
  }

  lemma {:induction false} InvalidateStepRefines(t: Table, ways: nat, v: Value, empty: Value)
    requires TableOk(t, ways) && v.index >= 0
    ensures Refines(t, ways, Invalidate(v), Step(t, Invalidate(v), empty))
  {
    var i := v.index % |t.sets|;
    InvalidateRefines(t.sets[i], t.count, v, empty);
    OneListChanges(t, ways, i, InvalidateIn(t.sets[i], v, empty).0, t.count, Without(Lists(t)[i], v.tag));
  }

  lemma {:induction false} StepRefines(t: Table, ways: nat, op: Op, empty: Value)
    requires TableOk(t, ways)
    ensures Refines(t, ways, op, Step(t, op, empty))
  {
    if op.v.index >= 0 {
      match op
      case CheckHit(v) => CheckHitRefines(t, ways, v, empty);
      case Fill(v) => FillStepRefines(t, ways, v, empty);
      case Invalidate(v) => InvalidateStepRefines(t, ways, v, empty);
    }
  }

  function Run(t: Table, ops: seq<Op>, empty: Value): (r: (Table, seq<Outcome>))
    requires |t.sets| > 0
    ensures |r.0.sets| == |t.sets|
  {
    if ops == [] then (t, [])
    else
      var (t1, outs) := Run(t, ops[..|ops| - 1], empty);
      var (t2, out) := Step(t1, ops[|ops| - 1], empty);
      (t2, outs + [out])
  }

  function ListRun(lists: seq<seq<Value>>, ways: nat, ops: seq<Op>): (r: (seq<seq<Value>>, seq<Outcome>))
    requires |lists| > 0
    ensures |r.0| == |lists|
  {
    if ops == [] then (lists, [])
    else
      var (lists1, outs) := ListRun(lists, ways, ops[..|ops| - 1]);
      var (lists2, out) := ListStep(lists1, ways, ops[|ops| - 1]);
      (lists2, outs + [out])
  }

  function EmptySet(ways: nat, empty: Value): (ws: Ways)
    ensures |ws| == ways && forall k :: 0 <= k < ways ==> ws[k] == Blank(empty)
  {
    seq(ways, _ => Blank(empty))
  }

  function EmptyTable(sets: nat, ways: nat, empty: Value): Table {
    Table(0, seq(sets, _ => EmptySet(ways, empty)))
  }

  lemma {:induction false} EmptyLists(sets: nat, ways: nat, empty: Value)
    requires sets > 0
    ensures TableOk(EmptyTable(sets, ways, empty), ways)
    ensures Lists(EmptyTable(sets, ways, empty)) == seq(sets, _ => [])
  {
    RecencyEmpty(EmptySet(ways, empty), 0);
  }

  lemma {:induction false} RunFrom(t: Table, ways: nat, ops: seq<Op>, empty: Value)
    requires TableOk(t, ways)
    ensures TableOk(Run(t, ops, empty).0, ways)
    ensures (Lists(Run(t, ops, empty).0), Run(t, ops, empty).1) == ListRun(Lists(t), ways, ops)
  {
    if ops != [] {
      var n := |ops| - 1;
      RunFrom(t, ways, ops[..n], empty);
      StepRefines(Run(t, ops[..n], empty).0, ways, ops[n], empty);
    }
  }

  // After any operations on an empty table, every set is its recency list, of at
  // most `ways` distinct tags, and every answer was the list's answer.
  lemma {:induction false} TableIsRecencyLists(sets: nat, ways: nat, ops: seq<Op>, empty: Value)
    requires sets > 0
    ensures var (t, outs) := Run(EmptyTable(sets, ways, empty), ops, empty);
            && (Lists(t), outs) == ListRun(seq(sets, _ => []), ways, ops)
            && (forall i :: 0 <= i < sets ==> |Lists(t)[i]| <= ways)
            && (forall i :: 0 <= i < sets ==> TagsApart(Lists(t)[i]))
  {
    EmptyLists(sets, ways, empty);
    RunFrom(EmptyTable(sets, ways, empty), ways, ops, empty);
    var t := Run(EmptyTable(sets, ways, empty), ops, empty).0;
    forall i | 0 <= i < sets ensures |Lists(t)[i]| <= ways && TagsApart(Lists(t)[i]) {
      WholeLength(t.sets[i], t.count);
      TagsDistinct(t.sets[i], t.count, t.count);
    }
  }

  lemma {:induction false} BlankSets(flat: seq<Block>, sets: nat, ways: nat, empty: Value)
    requires |flat| == sets * ways && forall k :: 0 <= k < |flat| ==> flat[k] == Blank(empty)
    ensures Rows(flat, sets, ways) == EmptyTable(sets, ways, empty).sets
  {
    forall i | 0 <= i < sets ensures RowAt(flat, sets, ways, i) == EmptySet(ways, empty) {
      MulMono(i, sets, ways);
    }
  }

  // ------------------------------------------------------------------- class

  datatype Error = Overflow | BadRange

  class LruTable {
    const numSet: nat
    const numWay: nat
    const empty: Value
    const block: array<Block>
    var accessCount: nat

    ghost predicate Valid()
      reads this, block
    {
      numSet > 0 && block.Length == numSet * numWay
    }

    ghost function View(): Table
      requires Valid()
      reads this, block
    {
      Table(accessCount, Rows(block[..], numSet, numWay))
    }

    constructor (sets: nat, ways: nat, empty: Value)
      requires sets > 0
      ensures Valid() && View() == EmptyTable(sets, ways, empty)
      ensures numSet == sets && numWay == ways && this.empty == empty && fresh(block)
    {
      numSet, numWay, accessCount := sets, ways, 0;
      this.empty := empty;
      var size: nat := sets * ways;
      block := new Block[size](_ => Blank(empty));
      new;
      BlankSets(block[..], sets, ways, empty);
    }

    // Where the set of an element with a usable index begins.
    method SetBegin(v: Value) returns (i: nat, begin: nat)
      requires Valid() && v.index >= 0
      ensures i == v.index % numSet && begin == i * numWay && begin + numWay <= block.Length
      ensures block[begin..begin + numWay] == View().sets[i]
    {
      i := v.index % numSet;
      begin := i * numWay;
      MulMono(i, numSet, numWay);
    }

    method FindIf(begin: nat, tag: int) returns (h: nat)
      requires begin + numWay <= block.Length
      ensures h == FindTag(block[begin..begin + numWay], tag)
    {
      ghost var ws := block[begin..begin + numWay];
      h := 0;
      while h < numWay && !(Used(block[begin + h]) && block[begin + h].data.tag == tag)
        invariant h <= numWay
        invariant forall k :: 0 <= k < h ==> !(Used(ws[k]) && ws[k].data.tag == tag)
      {
        h := h + 1;
      }
      ghost var f := FindTag(ws, tag);
      assert h < numWay ==> Used(ws[h]) && ws[h].data.tag == tag;
    }

    // std::minmax_element: the elements are taken in pairs.
    method MinMaxElement(begin: nat, tag: int) returns (lo: nat, hi: nat)
      requires 0 < numWay && begin + numWay <= block.Length
      ensures (lo, hi) == MinMax(block[begin..begin + numWay], tag)
    {
      ghost var ws := block[begin..begin + numWay];
      lo, hi := 0, 0;
      if numWay == 1 { return; }
      if Precedes(block[begin + 1], block[begin], tag) { lo := 1; } else { hi := 1; }
      var i := 2;
      while i < numWay
        invariant 2 <= i <= numWay && lo < i && hi < i
        invariant MinMaxFrom(ws, tag, lo, hi, i) == MinMax(ws, tag)
      {
        if i + 1 == numWay {
          if Precedes(block[begin + i], block[begin + lo], tag) {
            lo := i;
          } else if !Precedes(block[begin + i], block[begin + hi], tag) {
            hi := i;
          }
          i := i + 1;
        } else {
          var small, large := i, i + 1;
          if Precedes(block[begin + i + 1], block[begin + i], tag) { small, large := i + 1, i; }
          if Precedes(block[begin + small], block[begin + lo], tag) { lo := small; }
          if !Precedes(block[begin + large], block[begin + hi], tag) { hi := large; }
          i := i + 2;
        }
      }
    }

    method CheckHit(v: Value) returns (out: Outcome)
      requires Valid()
      modifies this, block
      ensures Valid() && (View(), out) == Step(old(View()), Op.CheckHit(v), empty)
    {
      if v.index < 0 { return NegativeIndex; }
      var i, begin := SetBegin(v);
      var h := FindIf(begin, v.tag);
      if h == numWay { return Found(None); }
      WriteOneCell(block[..], numSet, numWay, i, h, block[begin + h].(lastUsed := accessCount + 1));
      accessCount := accessCount + 1;
      block[begin + h] := block[begin + h].(lastUsed := accessCount);
      out := Found(Some(block[begin + h].data));
    }

    method Fill(v: Value) returns (out: Outcome)
      requires Valid()
      modifies this, block
      ensures Valid() && (View(), out) == Step(old(View()), Op.Fill(v), empty)
    {
      if v.index < 0 { return NegativeIndex; }
      out := Filled;
      var i, begin := SetBegin(v);
      if numWay > 0 {
        var miss, hit := MinMaxElement(begin, v.tag);
        var h := if block[begin + hit].data.tag == v.tag then hit else miss;
        WriteOneCell(block[..], numSet, numWay, i, h, Block(accessCount + 1, v));
        accessCount := accessCount + 1;
        block[begin + h] := Block(accessCount, v);
      }
    }

    method Invalidate(v: Value) returns (out: Outcome)
      requires Valid()
      modifies this, block
      ensures Valid() && (View(), out) == Step(old(View()), Op.Invalidate(v), empty)
    {
      if v.index < 0 { return NegativeIndex; }
      var i, begin := SetBegin(v);
      var h := FindIf(begin, v.tag);
      if h == numWay {
        assert View().sets[i := View().sets[i]] == View().sets;
        return Found(None);
      }
      WriteOneCell(block[..], numSet, numWay, i, h, Blank(empty));
      out := Found(Some(block[begin + h].data));
      block[begin + h] := Blank(empty);
    }
  }

  // The checks of the table constructor: sizes that do not fit a signed 64-bit
  // integer, then a set count that is not a power of two.
  method MakeTable(sets: nat, ways: nat, empty: Value) returns (r: Option<LruTable>, e: Option<Error>)
    ensures r.Some? <==> sets < Pow2(63) && ways < Pow2(63) && sets > 0 && IsPowerOfTwo(sets)
    ensures e == (if r.Some? then None else if sets >= Pow2(63) || ways >= Pow2(63) then Some(Overflow) else Some(BadRange))
    ensures r.Some? ==> fresh(r.value) && r.value.Valid() && r.value.View() == EmptyTable(sets, ways, empty)
  {
    if sets >= Pow2(63) || ways >= Pow2(63) { return None, Some(Overflow); }
    if sets == 0 { return None, Some(BadRange); }
    MaskTest(sets);
    if And(sets, sets - 1) != 0 { return None, Some(BadRange); }
    var t := new LruTable(sets, ways, empty);
    return Some(t), None;
  }
}
