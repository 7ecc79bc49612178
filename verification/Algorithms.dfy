// Small generic algorithms over ranges (champsim/inc/util/algorithm.h,
// champsim/inc/util/span.h).
module Algorithms {
  // The elements that satisfy p, in order.
  function Filter<T>(s: seq<T>, p: T -> bool): (r: seq<T>)
    ensures |r| <= |s|
  {
    if s == [] then []
    else Filter(s[..|s| - 1], p) + if p(s[|s| - 1]) then [s[|s| - 1]] else []
  }

  function Not<T>(p: T -> bool): T -> bool {
    x => !p(x)
  }

  // get_span_p: how many elements at the front satisfy p, at most n. It stops at
  // the first that does not.
  function Span<T>(s: seq<T>, n: nat, p: T -> bool): (k: nat)
    ensures k <= |s| && k <= n
    ensures forall i :: 0 <= i < k ==> p(s[i])
    ensures k == |s| || k == n || !p(s[k])
  {
    if s == [] || n == 0 || !p(s[0]) then 0 else 1 + Span(s[1..], n - 1, p)
  }

  method GetSpan<T>(s: seq<T>, n: nat, p: T -> bool) returns (k: nat)
    ensures k == Span(s, n, p)
  {
    ghost var span := Span(s, n, p);
    k := 0;
    assert s[0..] == s;
    while k < |s| && k < n && p(s[k])
      invariant k <= |s| && k <= n && k + Span(s[k..], n - k, p) == span
    {
      assert s[k..][1..] == s[k + 1..];
      k := k + 1;
    }
  }

  function Map<T, U>(s: seq<T>, f: T -> U): (r: seq<U>)
    ensures |r| == |s| && forall i :: 0 <= i < |s| ==> r[i] == f(s[i])
  {
    if s == [] then [] else Map(s[..|s| - 1], f) + [f(s[|s| - 1])]
  }

  // Moves up to n elements from the front of a queue to the back of another list.
  method TransformWhileN<T, U>(queue: seq<T>, out: seq<U>, n: nat, p: T -> bool, f: T -> U)
    returns (queue': seq<T>, out': seq<U>, moved: nat)
    ensures moved == Span(queue, n, p)
    ensures queue' == queue[moved..] && out' == out + Map(queue[..moved], f)
  {
    moved := GetSpan(queue, n, p);
    out' := out;
    for i := 0 to moved
      invariant out' == out + Map(queue[..i], f)
    {
      assert queue[..i + 1][..i] == queue[..i];
      out' := out' + [f(queue[i])];
    }
    queue' := queue[moved..];
  }

  lemma {:induction false} FilterEmpty<T>(p: T -> bool)
    ensures Filter([], p) == []
  {
  }

  lemma {:induction false} FilterSnoc<T>(s: seq<T>, i: nat, p: T -> bool)
    requires i < |s|
    ensures Filter(s[..i + 1], p) == Filter(s[..i], p) + if p(s[i]) then [s[i]] else []
  {
    assert s[..i + 1][..i] == s[..i];
  }

  // Compacts a range in place: elements that satisfy p are moved out, the others
  // to the front. `kept` is the new end of the range.
  method ExtractIf<T>(a: array<T>, out: seq<T>, p: T -> bool) returns (kept: nat, out': seq<T>)
    modifies a
    ensures kept <= a.Length && a[..kept] == Filter(old(a[..]), Not(p))
    ensures out' == out + Filter(old(a[..]), p)
  {
    hide Filter;
    ghost var s := a[..];
    FilterEmpty<T>(p);
    FilterEmpty<T>(Not(p));
    kept, out' := 0, out;
    // find_if: nothing moves before the first match
    while kept < a.Length && !p(a[kept])
      invariant kept <= a.Length && a[..] == s
      invariant a[..kept] == Filter(s[..kept], Not(p)) && Filter(s[..kept], p) == []
    {
      FilterSnoc(s, kept, p);
      FilterSnoc(s, kept, Not(p));
      kept := kept + 1;
    }
    for i := kept to a.Length
      invariant kept <= i <= a.Length && a[i..] == s[i..]
      invariant a[..kept] == Filter(s[..i], Not(p)) && out' == out + Filter(s[..i], p)
    {
      FilterSnoc(s, i, p);
      FilterSnoc(s, i, Not(p));
      assert a[i] == a[i..][0] == s[i..][0] == s[i];
      if p(a[i]) {
        out' := out' + [a[i]];
      } else {
        a[kept] := a[i];
        kept := kept + 1;
      }
    }
    assert s[..a.Length] == s;
  }

  // Nothing is lost or invented: the two parts make up the whole.
  lemma {:induction false} FilterSplits<T>(s: seq<T>, p: T -> bool)
    ensures multiset(Filter(s, p)) + multiset(Filter(s, Not(p))) == multiset(s)
  {
    if s == [] {
    } else {
      var n := |s| - 1;
      FilterSplits(s[..n], p);
      assert s == s[..n] + [s[n]];
    }
  }

  lemma {:induction false} FilterMember<T>(s: seq<T>, p: T -> bool, x: T)
    ensures x in Filter(s, p) <==> x in s && p(x)
  {
    if s != [] {
      var n := |s| - 1;
      FilterMember(s[..n], p, x);
      assert s == s[..n] + [s[n]];
    }
  }

  // ------------------------------------------------------------------- totals

  function Total<T>(s: seq<T>, f: T -> nat): nat {
    if s == [] then 0 else Total(s[..|s| - 1], f) + f(s[|s| - 1])
  }

  lemma {:induction false} TotalAppend<T>(x: seq<T>, y: seq<T>, f: T -> nat)
    ensures Total(x + y, f) == Total(x, f) + Total(y, f)
  {
    if y == [] {
      assert x + y == x;
    } else {
      var n := |y| - 1;
      assert (x + y)[..|x + y| - 1] == x + y[..n];
      TotalAppend(x, y[..n], f);
    }
  }

  lemma {:induction false} TotalOne<T>(x: T, f: T -> nat)
    ensures Total([x], f) == f(x)
  {
    assert [x][..0] == [];
  }

  lemma {:induction false} TotalSplit<T>(s: seq<T>, k: nat, f: T -> nat)
    requires k <= |s|
    ensures Total(s, f) == Total(s[..k], f) + Total(s[k..], f)
  {
    assert s == s[..k] + s[k..];
    TotalAppend(s[..k], s[k..], f);
  }

  lemma {:induction false} TotalErase<T>(s: seq<T>, i: nat, f: T -> nat)
    requires i < |s|
    ensures Total(s[..i] + s[i + 1..], f) + f(s[i]) == Total(s, f)
  {
    assert s == s[..i] + [s[i]] + s[i + 1..];
    TotalAppend(s[..i] + [s[i]], s[i + 1..], f);
    TotalAppend(s[..i], [s[i]], f);
    TotalAppend(s[..i], s[i + 1..], f);
    TotalOne(s[i], f);
  }

  lemma {:induction false} TotalUpdate<T>(s: seq<T>, i: nat, x: T, f: T -> nat)
    requires i < |s|
    ensures Total(s[i := x], f) + f(s[i]) == Total(s, f) + f(x)
  {
    var r := s[i := x];
    TotalErase(s, i, f);
    TotalErase(r, i, f);
    assert r[..i] + r[i + 1..] == s[..i] + s[i + 1..];
  }

  lemma {:induction false} TotalFilter<T>(s: seq<T>, p: T -> bool, f: T -> nat)
    ensures Total(Filter(s, p), f) + Total(Filter(s, Not(p)), f) == Total(s, f)
  {
    if s != [] {
      var n := |s| - 1;
      TotalFilter(s[..n], p, f);
      TotalOne(s[n], f);
      var q := if p(s[n]) then p else Not(p);
      TotalAppend(Filter(s[..n], q), [s[n]], f);
      if p(s[n]) {
        assert Filter(s, Not(p)) == Filter(s[..n], Not(p));
      } else {
        assert Filter(s, p) == Filter(s[..n], p);
      }
    }
  }

  // Totals compare when their elements do.
  lemma {:induction false} TotalLess<T, U>(x: seq<T>, f: T -> nat, y: seq<U>, g: U -> nat)
    requires |x| == |y| && forall i :: 0 <= i < |x| ==> f(x[i]) <= g(y[i])
    ensures Total(x, f) <= Total(y, g)
  {
    if x != [] { TotalLess(x[..|x| - 1], f, y[..|y| - 1], g); }
  }
}
