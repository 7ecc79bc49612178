// std::set_union on sorted lists, which merging requests relies on.
module SetUnion {
  // std::set_union.
  function Union(x: seq<nat>, y: seq<nat>): seq<nat>
    decreases |x| + |y|
  {
    if x == [] then y
    else if y == [] then x
    else if x[0] < y[0] then [x[0]] + Union(x[1..], y)
    else if y[0] < x[0] then [y[0]] + Union(x, y[1..])
    else [x[0]] + Union(x[1..], y[1..])
  }

  predicate Sorted(s: seq<nat>) {
    forall i, j :: 0 <= i < j < |s| ==> s[i] <= s[j]
  }

  predicate Includes(s: seq<nat>, part: seq<nat>) {
    forall e :: e in part ==> e in s
  }

  lemma {:induction false} UnionMembers(x: seq<nat>, y: seq<nat>, e: nat)
    ensures e in Union(x, y) <==> e in x || e in y
    decreases |x| + |y|
  {
    if x != [] && y != [] {
      if x[0] < y[0] {
        UnionMembers(x[1..], y, e);
      } else if y[0] < x[0] {
        UnionMembers(x, y[1..], e);
      } else {
        UnionMembers(x[1..], y[1..], e);
      }
    }
  }

  lemma {:induction false} UnionIncludes(x: seq<nat>, y: seq<nat>)
    ensures Includes(Union(x, y), x) && Includes(Union(x, y), y)
  {
    forall e: nat ensures e in x || e in y ==> e in Union(x, y) { UnionMembers(x, y, e); }
  }

  lemma {:induction false} SortedTail(s: seq<nat>)
    requires Sorted(s) && s != []
    ensures Sorted(s[1..]) && forall e :: e in s[1..] ==> s[0] <= e
  {
  }

  lemma {:induction false} SortedCons(x: nat, s: seq<nat>)
    requires Sorted(s) && forall e :: e in s ==> x <= e
    ensures Sorted([x] + s)
  {
    var z := [x] + s;
    forall i, j | 0 <= i < j < |z| ensures z[i] <= z[j] { assert z[j] in s; }
  }

  // The union of sorted ranges is sorted, so that it may be merged again.
  lemma {:induction false} UnionSorted(x: seq<nat>, y: seq<nat>)
    requires Sorted(x) && Sorted(y)
    ensures Sorted(Union(x, y))
    decreases |x| + |y|
  {
    if x != [] && y != [] {
      SortedTail(x);
      SortedTail(y);
      var h, rest :=
        if x[0] < y[0] then (x[1..], y) else if y[0] < x[0] then (x, y[1..]) else (x[1..], y[1..]),
        Union(if y[0] < x[0] then x else x[1..], if x[0] < y[0] then y else y[1..]);
      UnionSorted(h.0, h.1);
      var low := if y[0] < x[0] then y[0] else x[0];
      forall e | e in rest ensures low <= e {
        UnionMembers(h.0, h.1, e);
      }
      SortedCons(low, rest);
    }
  }
}
