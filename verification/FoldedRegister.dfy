// The folded branch-history register of the hashed perceptron
// (champsim/branch/hashed_perceptron/folded_shift_register.h): a history kept
// in packed words, and the plain bit history it stands for.
module FoldedRegister {
  import opened Prelude
  import opened Bits

  // WORD_LEN, NUM_WORDS_PER_VALUE and VALUE_LEN.
  datatype Layout = Layout(word: nat, num: nat)
  {
    predicate Valid() {
      1 <= word <= 64 && num == 64 / word
    }

    function ValueLen(): nat {
      word * num
    }
  }

  // ------------------------------------------------------------------- code

  function WordCount(length: nat, value: nat): nat
    requires value > 0
  {
    length / value + if length % value != 0 then 1 else 0
  }

  function Msb(x: nat, value: nat): nat
    requires value > 0
  {
    if Bit(x, value - 1) then 1 else 0
  }

  function ShiftIn(x: nat, lsb: nat, value: nat): nat {
    Low(2 * x + lsb, value)
  }

  // Every word takes in the most significant bit of the word before it.
  function ShiftAll(words: seq<nat>, lsb: nat, value: nat): (r: seq<nat>)
    requires value > 0
    ensures |r| == |words|
  {
    if words == [] then []
    else
      var n := |words| - 1;
      ShiftAll(words[..n], lsb, value) + [ShiftIn(words[n], if n == 0 then lsb else Msb(words[n - 1], value), value)]
  }

  // The last word may be narrower; a mask of zero means that it is not.
  function MaskLast(words: seq<nat>, narrow: nat): (r: seq<nat>)
    ensures |r| == |words|
  {
    if narrow == 0 || words == [] then words else words[|words| - 1 := Low(words[|words| - 1], narrow)]
  }

  function Push(words: seq<nat>, ins: bool, length: nat, value: nat): (r: seq<nat>)
    requires value > 0
    ensures |r| == |words|
  {
    MaskLast(ShiftAll(words, if ins then 1 else 0, value), length % value)
  }

  function XorAll(words: seq<nat>): nat {
    if words == [] then 0 else Xor(XorAll(words[..|words| - 1]), words[|words| - 1])
  }

  // result ^= (joined >>= WORD_LEN), n times.
  function Unpack(joined: nat, word: nat, n: nat): nat {
    if n == 0 then joined else Xor(Unpack(joined, word, n - 1), Shr(joined, n * word))
  }

  function Value(words: seq<nat>, l: Layout): nat {
    var joined := XorAll(words);
    Low(if l.num > 1 then Unpack(joined, l.word, l.num + 1) else joined, l.word)
  }

  // ---------------------------------------------------------- specification

  // Bit n of a history, most recent first; older than everything pushed is 0.
  predicate Past(history: seq<bool>, n: nat) {
    n < |history| && history[n]
  }

  // The history as far as a register of this length remembers it.
  predicate Kept(history: seq<bool>, length: nat, n: nat) {
    n < length && Past(history, n)
  }

  // The exclusive or of the remembered bits below n whose position is j modulo w.
  predicate Parity(history: seq<bool>, length: nat, w: nat, j: nat, n: nat)
    requires w > 0
  {
    n > 0 && (Parity(history, length, w, j, n - 1) != ((n - 1) % w == j && Kept(history, length, n - 1)))
  }

  // Bit i of word k holds history bit k * value + i.
  ghost predicate Holds(words: seq<nat>, history: seq<bool>, length: nat, value: nat) {
    && value > 0
    && |words| == WordCount(length, value)
    && forall k, i: nat :: 0 <= k < |words| ==> HoldsBit(words, history, length, value, k, i)
  }

  ghost predicate HoldsBit(words: seq<nat>, history: seq<bool>, length: nat, value: nat, k: nat, i: nat)
    requires k < |words|
  {
    Bit(words[k], i) == (i < value && Kept(history, length, k * value + i))
  }

  // -------------------------------------------------------------- arithmetic

  // Words are exactly as many as the length needs.
  lemma {:induction false} WordCountExact(length: nat, value: nat, k: nat)
    requires value > 0
    ensures k < WordCount(length, value) <==> k * value < length
  {
    var q := length / value;
    DivMod(length, value);
    if k < q {
      MulMono(k, q, value);
    } else if k > q {
      MulMono(q, k, value);
    }
  }

  // ------------------------------------------------------------------ pushing

  lemma {:induction false} BitShifted(x: nat, b: nat, i: nat)
    requires b < 2
    ensures Bit(2 * x + b, i) == if i == 0 then b == 1 else Bit(x, i - 1)
  {
    assert (2 * x + b) / 2 == x && (2 * x + b) % 2 == b;
  }

  lemma {:induction false} ShiftAllAt(words: seq<nat>, lsb: nat, value: nat, k: nat)
    requires value > 0 && k < |words|
    ensures ShiftAll(words, lsb, value)[k] == ShiftIn(words[k], if k == 0 then lsb else Msb(words[k - 1], value), value)
  {
    var n := |words| - 1;
    if k < n { ShiftAllAt(words[..n], lsb, value, k); }
  }

  // A word takes the last bit of the word before it, the first word the new bit.
  lemma {:induction false} ShiftedWord(words: seq<nat>, ins: bool, value: nat, k: nat, i: nat)
    requires value > 0 && k < |words|
    ensures Bit(ShiftAll(words, if ins then 1 else 0, value)[k], i) ==
            (i < value && if i > 0 then Bit(words[k], i - 1) else if k > 0 then Bit(words[k - 1], value - 1) else ins)
  {
    var lsb := if k == 0 then if ins then 1 else 0 else Msb(words[k - 1], value);
    ShiftAllAt(words, if ins then 1 else 0, value, k);
    BitLow(2 * words[k] + lsb, value, i);
    BitShifted(words[k], lsb, i);
  }

  // What the shift puts in bit i of word k, before the last word is masked.
  lemma {:induction false} ShiftedBit(words: seq<nat>, history: seq<bool>, ins: bool, length: nat, value: nat, k: nat, i: nat)
    requires Holds(words, history, length, value) && k < |words|
    ensures Bit(ShiftAll(words, if ins then 1 else 0, value)[k], i) ==
            (i < value && (k * value + i == 0 || k * value + i - 1 < length) && Past([ins] + history, k * value + i))
  {
    hide Bit, ShiftAll, WordCount;
    ShiftedWord(words, ins, value, k, i);
    if i > 0 {
      assert HoldsBit(words, history, length, value, k, i - 1);
    } else if k > 0 {
      assert HoldsBit(words, history, length, value, k - 1, value - 1);
      MulMono(k - 1, k, value);
      WordCountExact(length, value, k);
    }
  }

  lemma {:induction false} LastWord(length: nat, value: nat, k: nat, i: nat)
    requires value > 0 && k < WordCount(length, value) && i < value && k * value + i <= length
    ensures k * value + i == length <==> k == WordCount(length, value) - 1 && i == length % value && length % value != 0
  {
    var q := length / value;
    assert length == q * value + length % value;
    WordCountExact(length, value, k);
    if k * value + i == length {
      DivUnique(length, value, k, i);
      WordCountExact(length, value, k + 1);
      assert (k + 1) * value == k * value + value;
    } else if k == WordCount(length, value) - 1 && length % value != 0 {
      assert k == q;
    }
  }

  // Pushing a bit prepends it to the history that the words hold.
  lemma {:induction false} PushHolds(words: seq<nat>, history: seq<bool>, ins: bool, length: nat, value: nat)
    requires Holds(words, history, length, value)
    ensures Holds(Push(words, ins, length, value), [ins] + history, length, value)
  {
    var r, h := Push(words, ins, length, value), [ins] + history;
    forall k, i: nat | 0 <= k < |r| ensures HoldsBit(r, h, length, value, k, i) {
      PushHoldsBit(words, history, ins, length, value, k, i);
    }
  }

  lemma {:induction false} PushHoldsBit(words: seq<nat>, history: seq<bool>, ins: bool, length: nat, value: nat, k: nat, i: nat)
    requires Holds(words, history, length, value) && k < |words|
    ensures HoldsBit(Push(words, ins, length, value), [ins] + history, length, value, k, i)
  {
    var shifted, narrow := ShiftAll(words, if ins then 1 else 0, value), length % value;
    ShiftedBit(words, history, ins, length, value, k, i);
    WordCountExact(length, value, k);
    if i < value && k * value + i <= length { LastWord(length, value, k, i); }
    if narrow != 0 && k == |words| - 1 {
      BitLow(shifted[k], narrow, i);
      LastWordWidth(length, value);
    }
  }

  lemma {:induction false} LastWordWidth(length: nat, value: nat)
    requires value > 0 && length % value != 0
    ensures (WordCount(length, value) - 1) * value + length % value == length
  {
    assert length == (length / value) * value + length % value;
  }

  lemma {:induction false} EmptyHolds(length: nat, value: nat)
    requires value > 0
    ensures Holds(seq(WordCount(length, value), _ => 0), [], length, value)
  {
    var words := seq(WordCount(length, value), _ => 0);
    forall k, i: nat | 0 <= k < |words| ensures HoldsBit(words, [], length, value, k, i) { ZeroBits(i); }
  }

  // ------------------------------------------------------------------ folding

  // The exclusive or of bits j, j + w, ... of x, n of them.
  predicate Folded(x: nat, w: nat, j: nat, n: nat) {
    n > 0 && (Folded(x, w, j, n - 1) != Bit(x, j + (n - 1) * w))
  }

  lemma {:induction false} FoldedZero(w: nat, j: nat, n: nat)
    ensures !Folded(0, w, j, n)
  {
    if n > 0 {
      FoldedZero(w, j, n - 1);
      ZeroBits(j + (n - 1) * w);
    }
  }

  lemma {:induction false} FoldedXor(x: nat, y: nat, w: nat, j: nat, n: nat)
    ensures Folded(Xor(x, y), w, j, n) == (Folded(x, w, j, n) != Folded(y, w, j, n))
  {
    if n > 0 {
      FoldedXor(x, y, w, j, n - 1);
      BitXor(x, y, j + (n - 1) * w);
    }
  }

  lemma {:induction false} UnpackBit(joined: nat, w: nat, n: nat, j: nat)
    ensures Bit(Unpack(joined, w, n), j) == Folded(joined, w, j, n + 1)
  {
    if n == 0 {
      assert !Folded(joined, w, j, 0);
      assert j + 0 * w == j;
    } else {
      UnpackBit(joined, w, n - 1, j);
      BitXor(Unpack(joined, w, n - 1), Shr(joined, n * w), j);
      BitShr(joined, n * w, j);
    }
  }

  // Shifting further than the value is long adds nothing.
  lemma {:induction false} FoldedBeyond(x: nat, w: nat, j: nat, num: nat, n: nat)
    requires x < Pow2(w * num) && num <= n
    ensures Folded(x, w, j, n) == Folded(x, w, j, num)
    decreases n
  {
    if num < n {
      FoldedBeyond(x, w, j, num, n - 1);
      if num < n - 1 { MulMono(num, n - 1, w); }
      assert w * num == num * w <= (n - 1) * w;
      HighBits(x, w * num, j + (n - 1) * w);
    }
  }

  // One word's worth of positions contains position j modulo w once.
  lemma {:induction false} ParityStep(history: seq<bool>, length: nat, w: nat, j: nat, c: nat, t: nat)
    requires w > 0 && j < w && t <= w
    ensures Parity(history, length, w, j, c * w + t) ==
            (Parity(history, length, w, j, c * w) != (j < t && Kept(history, length, c * w + j)))
  {
    if t > 0 {
      ParityStep(history, length, w, j, c, t - 1);
      DivUnique(c * w + (t - 1), w, c, t - 1);
      assert c * w + t - 1 == c * w + (t - 1);
    }
  }

  lemma {:induction false} ParityBeyond(history: seq<bool>, length: nat, w: nat, j: nat, n: nat)
    requires w > 0 && length <= n
    ensures Parity(history, length, w, j, n) == Parity(history, length, w, j, length)
    decreases n
  {
    if length < n { ParityBeyond(history, length, w, j, n - 1); }
  }

  lemma {:induction false} MulAdd(a: nat, b: nat, w: nat)
    ensures a * w + b * w == (a + b) * w
  {
  }

  // Word k is a whole number of folds into the history.
  lemma {:induction false} WordStart(k: nat, w: nat, num: nat)
    ensures k * (w * num) == (k * num) * w
  {
    assert (k * num) * w == k * (num * w);
  }

  // Folding word k adds its stretch of the history to the parity.
  lemma {:induction false} FoldOneWord(words: seq<nat>, history: seq<bool>, length: nat, w: nat, num: nat, v: nat,
                                       k: nat, start: nat, j: nat, m: nat)
    requires 0 < w && j < w && m <= num && num * w == v && start == k * v
    requires start == (k * num) * w && k < |words| && Holds(words, history, length, v)
    ensures Parity(history, length, w, j, start + m * w) ==
            (Parity(history, length, w, j, start) != Folded(words[k], w, j, m))
  {
    hide Parity;
    if m > 0 {
      var done := (m - 1) * w;
      FoldOneWord(words, history, length, w, num, v, k, start, j, m - 1);
      MulAdd(k * num, m - 1, w);
      MulMono(m - 1, num, w);
      ParityStep(history, length, w, j, k * num + (m - 1), w);
      assert HoldsBit(words, history, length, v, k, j + done);
    }
  }

  lemma {:induction false} FoldWords(words: seq<nat>, history: seq<bool>, length: nat, w: nat, num: nat, v: nat, j: nat, n: nat)
    requires 0 < w && j < w && v == w * num && n <= |words| && Holds(words, history, length, v)
    ensures Folded(XorAll(words[..n]), w, j, num) == Parity(history, length, w, j, n * v)
  {
    if n == 0 {
      FoldedZero(w, j, num);
    } else {
      FoldWords(words, history, length, w, num, v, j, n - 1);
      assert words[..n][..n - 1] == words[..n - 1];
      FoldedXor(XorAll(words[..n - 1]), words[n - 1], w, j, num);
      WordStart(n - 1, w, num);
      FoldOneWord(words, history, length, w, num, v, n - 1, (n - 1) * v, j, num);
      MulMono(n - 1, n, v);
    }
  }

  lemma {:induction false} WordInRange(words: seq<nat>, history: seq<bool>, length: nat, value: nat, k: nat)
    requires Holds(words, history, length, value) && k < |words|
    ensures words[k] < Pow2(value)
  {
    forall i: nat ensures Bit(Low(words[k], value), i) == Bit(words[k], i) {
      BitLow(words[k], value, i);
      assert HoldsBit(words, history, length, value, k, i);
    }
    SameBits(Low(words[k], value), words[k]);
    LowInRange(words[k], value);
  }

  lemma {:induction false} XorAllInRange(words: seq<nat>, history: seq<bool>, length: nat, value: nat, n: nat)
    requires Holds(words, history, length, value) && n <= |words|
    ensures XorAll(words[..n]) < Pow2(value)
  {
    if n > 0 {
      XorAllInRange(words, history, length, value, n - 1);
      assert words[..n][..n - 1] == words[..n - 1];
      WordInRange(words, history, length, value, n - 1);
      XorInRange(XorAll(words[..n - 1]), words[n - 1], value);
    }
  }

  lemma {:induction false} ValueLenPositive(l: Layout)
    requires l.Valid()
    ensures l.num >= 1 && l.ValueLen() > 0
  {
    assert l.num * l.word >= l.word by { assert (l.num - 1) * l.word >= 0; }
  }

  // Bit j of the value is the exclusive or of the `length` most recent history
  // bits whose position is j modulo WORD_LEN; there are no other bits.
  lemma {:induction false} ValueFoldsHistory(words: seq<nat>, history: seq<bool>, length: nat, l: Layout, j: nat)
    requires l.Valid() && Holds(words, history, length, l.ValueLen())
    ensures Bit(Value(words, l), j) == (j < l.word && Parity(history, length, l.word, j, length))
  {
    var joined := XorAll(words);
    var unpacked := if l.num > 1 then Unpack(joined, l.word, l.num + 1) else joined;
    BitLow(unpacked, l.word, j);
    if j < l.word {
      assert words[..|words|] == words;
      ValueLenPositive(l);
      XorAllInRange(words, history, length, l.ValueLen(), |words|);
      FoldWords(words, history, length, l.word, l.num, l.ValueLen(), j, |words|);
      WordCountExact(length, l.ValueLen(), |words|);
      ParityBeyond(history, length, l.word, j, |words| * l.ValueLen());
      if l.num > 1 {
        UnpackBit(joined, l.word, l.num + 1, j);
        FoldedBeyond(joined, l.word, j, l.num, l.num + 2);
      } else {
        assert !Folded(joined, l.word, j, 0);
        assert j + 0 * l.word == j;
      }
    }
  }

  function PushAll(words: seq<nat>, pushes: seq<bool>, length: nat, value: nat): (r: seq<nat>)
    requires value > 0
    ensures |r| == |words|
  {
    if pushes == [] then words
    else Push(PushAll(words, pushes[..|pushes| - 1], length, value), pushes[|pushes| - 1], length, value)
  }

  // A sequence of pushes as a history, most recent first.
  function History(pushes: seq<bool>): seq<bool> {
    if pushes == [] then [] else [pushes[|pushes| - 1]] + History(pushes[..|pushes| - 1])
  }

  lemma {:induction false} PushAllHolds(pushes: seq<bool>, length: nat, value: nat)
    requires value > 0
    ensures Holds(PushAll(seq(WordCount(length, value), _ => 0), pushes, length, value), History(pushes), length, value)
  {
    var words := seq(WordCount(length, value), _ => 0);
    if pushes == [] {
      EmptyHolds(length, value);
    } else {
      var n := |pushes| - 1;
      PushAllHolds(pushes[..n], length, value);
      PushHolds(PushAll(words, pushes[..n], length, value), History(pushes[..n]), pushes[n], length, value);
    }
  }

  // For every register length, also 0 and multiples of VALUE_LEN, and any pushes.
  lemma {:induction false} PushesThenValue(l: Layout, length: nat, pushes: seq<bool>, j: nat)
    requires l.Valid()
    ensures l.ValueLen() > 0
    ensures var words := PushAll(seq(WordCount(length, l.ValueLen()), _ => 0), pushes, length, l.ValueLen());
            Bit(Value(words, l), j) == (j < l.word && Parity(History(pushes), length, l.word, j, length))
  {
    ValueLenPositive(l);
    PushAllHolds(pushes, length, l.ValueLen());
    ValueFoldsHistory(PushAll(seq(WordCount(length, l.ValueLen()), _ => 0), pushes, length, l.ValueLen()),
                      History(pushes), length, l, j);
  }

  // ------------------------------------------------------------------- class

  class FoldedShiftRegister {
    const layout: Layout
    const length: nat
    const valueLen: nat
    const words: array<nat>
    ghost var history: seq<bool>

    ghost predicate Valid()
      reads this, words
    {
      layout.Valid() && valueLen == layout.ValueLen() && Holds(words[..], history, length, valueLen)
    }

    constructor (layout: Layout, length: nat)
      requires layout.Valid()
      ensures Valid() && history == [] && this.layout == layout && this.length == length && fresh(words)
    {
      ValueLenPositive(layout);
      this.layout, this.length, valueLen := layout, length, layout.ValueLen();
      words := new nat[WordCount(length, layout.ValueLen())](_ => 0);
      history := [];
      new;
      EmptyHolds(length, valueLen);
      assert words[..] == seq(WordCount(length, valueLen), _ => 0);
    }

    // The bits passed along are collected before any word moves.
    method ShiftWords(lsb: nat)
      requires valueLen > 0
      modifies words
      ensures words[..] == ShiftAll(old(words[..]), lsb, valueLen)
    {
      ghost var before := words[..];
      var msbs := [lsb];
      for k := 0 to words.Length
        invariant |msbs| == k + 1 && msbs[0] == lsb
        invariant forall m :: 0 < m <= k ==> msbs[m] == Msb(before[m - 1], valueLen)
      {
        msbs := msbs + [Msb(words[k], valueLen)];
      }
      for k := 0 to words.Length
        invariant forall m :: 0 <= m < k ==> words[m] == ShiftAll(before, lsb, valueLen)[m]
        invariant forall m :: k <= m < words.Length ==> words[m] == before[m]
      {
        ShiftAllAt(before, lsb, valueLen, k);
        words[k] := ShiftIn(words[k], msbs[k], valueLen);
      }
    }

    method PushBack(ins: bool)
      requires Valid()
      modifies this`history, words
      ensures Valid() && history == [ins] + old(history)
      ensures words[..] == Push(old(words[..]), ins, length, valueLen)
    {
      PushHolds(words[..], history, ins, length, valueLen);
      ShiftWords(if ins then 1 else 0);
      if length % valueLen != 0 && words.Length > 0 {
        words[words.Length - 1] := Low(words[words.Length - 1], length % valueLen);
      }
      history := [ins] + history;
    }

    method FoldedValue() returns (result: nat)
      requires Valid()
      ensures result == Value(words[..], layout)
      ensures forall j: nat ::
                Bit(result, j) == (j < layout.word && Parity(history, length, layout.word, j, length))
    {
      var joined := 0;
      for k := 0 to words.Length
        invariant joined == XorAll(words[..k])
      {
        assert words[..k + 1][..k] == words[..k];
        joined := Xor(joined, words[k]);
      }
      assert words[..words.Length] == words[..];
      result := joined;
      if layout.num > 1 {
        var shifted := joined;
        for i := 0 to layout.num + 1
          invariant shifted == Shr(joined, i * layout.word)
          invariant result == Unpack(joined, layout.word, i)
        {
          ShrShr(joined, i * layout.word, layout.word);
          MulMono(i, i + 1, layout.word);
          shifted := Shr(shifted, layout.word);
          result := Xor(result, shifted);
        }
      }
      result := Low(result, layout.word);
      forall j: nat ensures Bit(result, j) == (j < layout.word && Parity(history, length, layout.word, j, length)) {
        ValueFoldsHistory(words[..], history, length, layout, j);
      }
    }
  }
}
