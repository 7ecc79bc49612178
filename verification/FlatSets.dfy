// A set-associative array kept as one flat vector, one set after the other.
module FlatSets {
  import opened Prelude

  // The ways of set i in the flat vector.
  function RowAt<T>(flat: seq<T>, sets: nat, ways: nat, i: nat): (row: seq<T>)
    requires |flat| == sets * ways && i < sets
    ensures |row| == ways
  {
    MulMono(i, sets, ways);
    flat[i * ways..i * ways + ways]
  }

  function Rows<T>(flat: seq<T>, sets: nat, ways: nat): (r: seq<seq<T>>)
    requires |flat| == sets * ways
    ensures |r| == sets && forall i :: 0 <= i < sets ==> r[i] == RowAt(flat, sets, ways, i)
  {
    seq(sets, i requires 0 <= i < sets => RowAt(flat, sets, ways, i))
  }

  // Writing way k of set i writes nothing else.
  lemma {:induction false} WriteOneCell<T>(flat: seq<T>, sets: nat, ways: nat, i: nat, k: nat, b: T)
    requires |flat| == sets * ways && i < sets && k < ways && i * ways + k < |flat|
    ensures Rows(flat[i * ways + k := b], sets, ways) == Rows(flat, sets, ways)[i := RowAt(flat, sets, ways, i)[k := b]]
  {
    hide RowAt;
    var flat' := flat[i * ways + k := b];
    forall j | 0 <= j < sets
      ensures Rows(flat', sets, ways)[j] == Rows(flat, sets, ways)[i := RowAt(flat, sets, ways, i)[k := b]][j]
    {
      WriteRow(flat, sets, ways, i, k, b, j);
    }
  }

  lemma {:induction false} WriteRow<T>(flat: seq<T>, sets: nat, ways: nat, i: nat, k: nat, b: T, j: nat)
    requires |flat| == sets * ways && i < sets && k < ways && i * ways + k < |flat| && j < sets
    ensures RowAt(flat[i * ways + k := b], sets, ways, j)
         == if j == i then RowAt(flat, sets, ways, i)[k := b] else RowAt(flat, sets, ways, j)
  {
    MulMono(j, sets, ways);
    OtherRow(j, i, k, ways);
    WriteInRow(flat, j * ways, ways, i * ways + k, b);
  }

  // A cell of set i lies in no other set.
  lemma {:induction false} OtherRow(j: nat, i: nat, k: nat, ways: nat)
    requires k < ways
    ensures j * ways <= i * ways + k < j * ways + ways <==> j == i
  {
    if j < i { MulMono(j, i, ways); } else if i < j { MulMono(i, j, ways); }
  }

  lemma {:induction false} WriteInRow<T>(flat: seq<T>, start: nat, ways: nat, at: nat, b: T)
    requires start + ways <= |flat| && at < |flat|
    ensures var row := flat[start..start + ways];
            flat[at := b][start..start + ways] == if start <= at < start + ways then row[at - start := b] else row
  {
  }
}
