// Small shared vocabulary.
module Prelude {
  datatype Option<+T> = None | Some(value: T)

  function Min(a: int, b: int): int {
    if a <= b then a else b
  }

  function Max(a: int, b: int): int {
    if a >= b then a else b
  }

  function Sum(s: seq<nat>): nat {
    if s == [] then 0 else s[0] + Sum(s[1..])
  }

  lemma {:induction false} SumSnoc(ws: seq<nat>, w: nat)
    ensures Sum(ws + [w]) == Sum(ws) + w
  {
    if ws == [] {
      assert [w][1..] == [];
    } else {
      SumSnoc(ws[1..], w);
      assert (ws + [w])[1..] == ws[1..] + [w];
    }
  }

  lemma {:induction false} ConcatAssoc<T>(a: seq<T>, b: seq<T>, c: seq<T>)
    ensures a + (b + c) == (a + b) + c
  {
  }

  lemma {:induction false} TwiceInSeq<T>(s: seq<T>, i: int, j: int)
    requires 0 <= i < |s| && 0 <= j < |s| && i != j && s[i] == s[j]
    ensures multiset(s)[s[i]] >= 2
  {
    var lo, hi := Min(i, j), Max(i, j);
    assert s == s[..hi] + s[hi..];
    assert multiset(s) == multiset(s[..hi]) + multiset(s[hi..]);
    assert s[..hi][lo] == s[i] && s[hi..][0] == s[i];
  }

  // ---------------------------------------------------- products and quotients

  lemma {:induction false} DivMod(n: nat, d: nat)
    requires d > 0
    ensures n == (n / d) * d + n % d && n % d < d
  {
  }

  // n lies between the multiples of d next to it.
  lemma {:induction false} FloorOf(n: nat, d: nat)
    requires d > 0
    ensures 0 <= n / d && (n / d) * d <= n < (n / d + 1) * d
  {
    DivMod(n, d);
    assert (n / d + 1) * d == (n / d) * d + d;
  }

  lemma {:induction false} MulMono(a: nat, b: nat, v: nat)
    requires a < b
    ensures a * v + v == (a + 1) * v <= b * v
  {
    assert b * v == (a + 1) * v + (b - a - 1) * v;
  }

  lemma {:induction false} DivUnique(n: nat, d: nat, q: nat, r: nat)
    requires r < d && n == q * d + r
    ensures n / d == q && n % d == r
  {
    DivMod(n, d);
    if q < n / d {
      MulMono(q, n / d, d);
    } else if n / d < q {
      MulMono(n / d, q, d);
    }
  }
}
