// How the DRAM controller splits a physical address into channel, rank,
// bank group, bank, row and column (champsim/src/dram_controller.cc,
// champsim/inc/extent_set.h, champsim/inc/address.h, champsim/inc/extent.h).
module DramMapping {
  import opened Prelude
  import opened Bits

  // ------------------------------------------------------------ address slices

  // An address_slice with a dynamic extent.
  datatype Slice = Slice(value: nat, upper: nat, lower: nat)
  {
    predicate Valid() {
      lower <= upper && value < Pow2(upper - lower)
    }
  }

  // address_slice::slice: the extent is clamped to what is being sliced.
  function Sub(s: Slice, upper: nat, lower: nat): (r: Slice)
    requires s.Valid() && lower <= upper
    ensures r.Valid()
  {
    var size := s.upper - s.lower;
    var u, l := s.lower + Min(upper, size), s.lower + Min(lower, size);
    LowInRange(Shr(s.value, lower), u - l);
    Slice(Low(Shr(s.value, lower), u - l), u, l)
  }

  lemma {:induction false} SubBit(s: Slice, upper: nat, lower: nat, i: nat)
    requires s.Valid() && lower <= upper
    ensures Bit(Sub(s, upper, lower).value, i) == (lower + i < upper && Bit(s.value, lower + i))
  {
    var r := Sub(s, upper, lower);
    BitLow(Shr(s.value, lower), r.upper - r.lower, i);
    BitShr(s.value, lower, i);
    if lower + i >= s.upper - s.lower { HighBits(s.value, s.upper - s.lower, lower + i); }
  }

  lemma {:induction false} SubInRange(s: Slice, upper: nat, lower: nat)
    requires s.Valid() && lower <= upper
    ensures Sub(s, upper, lower).value < Pow2(upper - lower)
  {
    forall i: nat ensures Bit(Low(Sub(s, upper, lower).value, upper - lower), i) == Bit(Sub(s, upper, lower).value, i) {
      BitLow(Sub(s, upper, lower).value, upper - lower, i);
      SubBit(s, upper, lower, i);
    }
    SameBits(Low(Sub(s, upper, lower).value, upper - lower), Sub(s, upper, lower).value);
    LowInRange(Sub(s, upper, lower).value, upper - lower);
  }

  // ------------------------------------------------------------------ swizzling

  // What one turn of the loop of swizzle_bits mixes in.
  function Term(row: Slice, seg: nat, offset: nat, bits: nat, lower: nat): (r: nat)
    requires row.Valid()
    ensures r < Pow2(bits)
  {
    SubInRange(Sub(row, lower + seg, lower), offset + bits, offset);
    Sub(Sub(row, lower + seg, lower), offset + bits, offset).value
  }

  // The loop of swizzle_bits from the segment that starts at `lower` on. It
  // compares a bit position within the row with the row's own upper bound.
  function Swizzle(row: Slice, seg: nat, offset: nat, field: nat, bits: nat, lower: nat): nat
    requires row.Valid() && seg > 0
    decreases row.upper - lower
  {
    if lower + seg > row.upper then field
    else Swizzle(row, seg, offset, Xor(field, Term(row, seg, offset, bits, lower)), bits, lower + seg)
  }

  // swizzle_bits itself; without a segment size its loop would not end.
  method SwizzleBits(row: Slice, seg: nat, offset: nat, field: nat, bits: nat) returns (permuted: nat)
    requires row.Valid() && seg > 0 && field < Pow2(bits)
    ensures permuted == Swizzle(row, seg, offset, field, bits, 0)
    ensures permuted < Pow2(bits)
    ensures Swizzle(row, seg, offset, permuted, bits, 0) == field
  {
    permuted := field;
    var lower, upper := 0, seg;
    while upper <= row.upper
      invariant upper == lower + seg
      invariant Swizzle(row, seg, offset, permuted, bits, lower) == Swizzle(row, seg, offset, field, bits, 0)
      decreases row.upper - lower
    {
      permuted := Xor(permuted, Term(row, seg, offset, bits, lower));
      lower, upper := upper, upper + seg;
    }
    SwizzleInRange(row, seg, offset, field, bits, 0);
    SwizzleTwice(row, seg, offset, field, bits, 0);
  }

  // The loop cut off after some turns: what it returns by then, if anything. Here
  // the segments may be empty, as they are without bank and bank group bits.
  function SwizzleFor(row: Slice, seg: nat, offset: nat, field: nat, bits: nat, lower: nat, turns: nat): Option<nat>
    requires row.Valid()
    decreases turns
  {
    if lower + seg > row.upper then Some(field)
    else if turns == 0 then None
    else SwizzleFor(row, seg, offset, Xor(field, Term(row, seg, offset, bits, lower)), bits, lower + seg, turns - 1)
  }

  lemma {:induction false} SwizzleForEnds(row: Slice, seg: nat, offset: nat, field: nat, bits: nat, lower: nat, turns: nat)
    requires row.Valid() && seg > 0
    ensures lower + turns > row.upper ==> SwizzleFor(row, seg, offset, field, bits, lower, turns).Some?
    ensures SwizzleFor(row, seg, offset, field, bits, lower, turns) in {None, Some(Swizzle(row, seg, offset, field, bits, lower))}
    decreases turns
  {
    if lower + seg <= row.upper && turns > 0 {
      SwizzleForEnds(row, seg, offset, Xor(field, Term(row, seg, offset, bits, lower)), bits, lower + seg, turns - 1);
    }
  }

  lemma {:induction false} EmptySegments(row: Slice, offset: nat, field: nat, bits: nat, turns: nat)
    requires row.Valid()
    ensures SwizzleFor(row, 0, offset, field, bits, 0, turns) == None
    decreases turns
  {
    if turns > 0 { EmptySegments(row, offset, Xor(field, Term(row, 0, offset, bits, 0)), bits, turns - 1); }
  }

  // The loop of swizzle_bits ends exactly when its segments are not empty, and
  // then returns the swizzled field.
  lemma {:induction false} SwizzleEnds(row: Slice, seg: nat, offset: nat, field: nat, bits: nat)
    requires row.Valid()
    ensures (exists turns: nat :: SwizzleFor(row, seg, offset, field, bits, 0, turns).Some?) <==> seg > 0
    ensures forall turns: nat ::
              SwizzleFor(row, seg, offset, field, bits, 0, turns).Some? ==>
                seg > 0 && SwizzleFor(row, seg, offset, field, bits, 0, turns).value == Swizzle(row, seg, offset, field, bits, 0)
  {
    if seg > 0 {
      forall turns: nat ensures SwizzleFor(row, seg, offset, field, bits, 0, turns) in
                                  {None, Some(Swizzle(row, seg, offset, field, bits, 0))} {
        SwizzleForEnds(row, seg, offset, field, bits, 0, turns);
      }
      SwizzleForEnds(row, seg, offset, field, bits, 0, row.upper + 1);
      assert SwizzleFor(row, seg, offset, field, bits, 0, row.upper + 1).Some?;
    } else {
      forall turns: nat ensures SwizzleFor(row, seg, offset, field, bits, 0, turns).None? {
        EmptySegments(row, offset, field, bits, turns);
      }
    }
  }

  lemma {:induction false} SwizzleInRange(row: Slice, seg: nat, offset: nat, field: nat, bits: nat, lower: nat)
    requires row.Valid() && seg > 0 && field < Pow2(bits)
    ensures Swizzle(row, seg, offset, field, bits, lower) < Pow2(bits)
    decreases row.upper - lower
  {
    if lower + seg <= row.upper {
      var term := Term(row, seg, offset, bits, lower);
      XorInRange(field, term, bits);
      SwizzleInRange(row, seg, offset, Xor(field, term), bits, lower + seg);
    }
  }

  // What the whole loop mixes in depends on the row only.
  function Hash(row: Slice, seg: nat, offset: nat, bits: nat, lower: nat): nat
    requires row.Valid() && seg > 0
    decreases row.upper - lower
  {
    if lower + seg > row.upper then 0
    else Xor(Term(row, seg, offset, bits, lower), Hash(row, seg, offset, bits, lower + seg))
  }

  lemma {:induction false} XorAssoc(x: nat, y: nat, z: nat)
    ensures Xor(Xor(x, y), z) == Xor(x, Xor(y, z))
  {
    forall i: nat ensures Bit(Xor(Xor(x, y), z), i) == Bit(Xor(x, Xor(y, z)), i) {
      BitXor(Xor(x, y), z, i);
      BitXor(x, y, i);
      BitXor(x, Xor(y, z), i);
      BitXor(y, z, i);
    }
    SameBits(Xor(Xor(x, y), z), Xor(x, Xor(y, z)));
  }

  lemma {:induction false} SwizzleIsXor(row: Slice, seg: nat, offset: nat, field: nat, bits: nat, lower: nat)
    requires row.Valid() && seg > 0
    ensures Swizzle(row, seg, offset, field, bits, lower) == Xor(field, Hash(row, seg, offset, bits, lower))
    decreases row.upper - lower
  {
    if lower + seg > row.upper {
      XorZero(field);
    } else {
      var term := Term(row, seg, offset, bits, lower);
      SwizzleIsXor(row, seg, offset, Xor(field, term), bits, lower + seg);
      XorAssoc(field, term, Hash(row, seg, offset, bits, lower + seg));
    }
  }

  // For a fixed row, swizzling undoes itself.
  lemma {:induction false} SwizzleTwice(row: Slice, seg: nat, offset: nat, field: nat, bits: nat, lower: nat)
    requires row.Valid() && seg > 0
    ensures Swizzle(row, seg, offset, Swizzle(row, seg, offset, field, bits, lower), bits, lower) == field
  {
    SwizzleIsXor(row, seg, offset, field, bits, lower);
    SwizzleIsXor(row, seg, offset, Swizzle(row, seg, offset, field, bits, lower), bits, lower);
    XorTwice(field, Hash(row, seg, offset, bits, lower));
  }

  // The exclusive or of the bits of x below n whose position is t modulo seg.
  predicate Parity(x: nat, seg: nat, t: nat, n: nat)
    requires seg > 0
  {
    n > 0 && (Parity(x, seg, t, n - 1) != ((n - 1) % seg == t && Bit(x, n - 1)))
  }

  lemma {:induction false} ParityStep(x: nat, seg: nat, t: nat, c: nat, k: nat)
    requires t < seg && k <= seg
    ensures Parity(x, seg, t, c * seg + k) == (Parity(x, seg, t, c * seg) != (t < k && Bit(x, c * seg + t)))
  {
    if k > 0 {
      ParityStep(x, seg, t, c, k - 1);
      DivUnique(c * seg + (k - 1), seg, c, k - 1);
      assert c * seg + k - 1 == c * seg + (k - 1);
    }
  }

  lemma {:induction false} ParityBeyond(x: nat, size: nat, seg: nat, t: nat, n: nat)
    requires seg > 0 && x < Pow2(size) && size <= n
    ensures Parity(x, seg, t, n) == Parity(x, seg, t, size)
    decreases n
  {
    if size < n {
      HighBits(x, size, n - 1);
      ParityBeyond(x, size, seg, t, n - 1);
    }
  }

  lemma {:induction false} TermBit(row: Slice, seg: nat, offset: nat, bits: nat, lower: nat, j: nat)
    requires row.Valid()
    ensures Bit(Term(row, seg, offset, bits, lower), j) ==
            (j < bits && offset + j < seg && Bit(row.value, lower + offset + j))
  {
    SubBit(Sub(row, lower + seg, lower), offset + bits, offset, j);
    SubBit(row, lower + seg, lower, offset + j);
  }

  lemma {:induction false} HashBit(row: Slice, seg: nat, offset: nat, bits: nat, c: nat, j: nat)
    requires row.Valid() && seg > 0 && j < bits && offset + j < seg && row.upper - row.lower + seg <= row.upper
    requires c * seg <= row.upper
    ensures Bit(Hash(row, seg, offset, bits, c * seg), j) ==
            (Parity(row.value, seg, offset + j, c * seg) != Parity(row.value, seg, offset + j, row.upper - row.lower))
    decreases row.upper - c * seg
  {
    var lower, size, t := c * seg, row.upper - row.lower, offset + j;
    MulMono(c, c + 1, seg);
    if lower + seg > row.upper {
      ZeroBits(j);
      ParityBeyond(row.value, size, seg, t, lower);
    } else {
      BitXor(Term(row, seg, offset, bits, lower), Hash(row, seg, offset, bits, lower + seg), j);
      TermBit(row, seg, offset, bits, lower, j);
      HashBit(row, seg, offset, bits, c + 1, j);
      ParityStep(row.value, seg, t, c, seg);
    }
  }

  lemma {:induction false} HashBitOutside(row: Slice, seg: nat, offset: nat, bits: nat, lower: nat, j: nat)
    requires row.Valid() && seg > 0 && !(j < bits && offset + j < seg)
    ensures !Bit(Hash(row, seg, offset, bits, lower), j)
    decreases row.upper - lower
  {
    if lower + seg > row.upper {
      ZeroBits(j);
    } else {
      BitXor(Term(row, seg, offset, bits, lower), Hash(row, seg, offset, bits, lower + seg), j);
      TermBit(row, seg, offset, bits, lower, j);
      HashBitOutside(row, seg, offset, bits, lower + seg, j);
    }
  }

  // When a segment fits below the row, every row bit is mixed in: bit j of the
  // result is bit j of the field, exclusive or the row bits whose position is
  // offset + j modulo the segment size. Bits beyond the segment are not touched.
  lemma {:induction false} SwizzleMixesRow(row: Slice, seg: nat, offset: nat, field: nat, bits: nat, j: nat)
    requires row.Valid() && 0 < seg <= row.lower
    ensures Bit(Swizzle(row, seg, offset, field, bits, 0), j) ==
            (Bit(field, j) !=
             (j < bits && offset + j < seg && Parity(row.value, seg, offset + j, row.upper - row.lower)))
  {
    SwizzleIsXor(row, seg, offset, field, bits, 0);
    BitXor(field, Hash(row, seg, offset, bits, 0), j);
    assert 0 * seg == 0;
    if j < bits && offset + j < seg {
      HashBit(row, seg, offset, bits, 0, j);
    } else {
      HashBitOutside(row, seg, offset, bits, 0, j);
    }
  }

  // ------------------------------------------------- contiguous extent sets

  // Field i of make_contiguous_extent_set(0, widths...): it starts at the
  // std::partial_sum of the widths before it.
  function Field(a: nat, widths: seq<nat>, i: nat): (r: Slice)
    requires i < |widths|
    ensures r.Valid()
  {
    var lower := Sum(widths[..i]);
    LowInRange(Shr(a, lower), widths[i]);
    Slice(Low(Shr(a, lower), widths[i]), lower + widths[i], lower)
  }

  function Fields(a: nat, widths: seq<nat>): (r: seq<nat>)
    ensures |r| == |widths|
    decreases widths
  {
    if widths == [] then [] else [Low(a, widths[0])] + Fields(Shr(a, widths[0]), widths[1..])
  }

  function Glue(fields: seq<nat>, widths: seq<nat>): nat
    requires |fields| == |widths|
  {
    if widths == [] then 0 else Join(fields[0], widths[0], Glue(fields[1..], widths[1..]))
  }

  predicate InRange(fields: seq<nat>, widths: seq<nat>) {
    |fields| == |widths| && forall i :: 0 <= i < |fields| ==> fields[i] < Pow2(widths[i])
  }

  lemma {:induction false} FieldsAre(a: nat, widths: seq<nat>, i: nat)
    requires i < |widths|
    ensures Fields(a, widths)[i] == Field(a, widths, i).value
    decreases widths
  {
    if i > 0 {
      FieldsAre(Shr(a, widths[0]), widths[1..], i - 1);
      assert widths[..i][1..] == widths[1..][..i - 1];
      ShrShr(a, widths[0], Sum(widths[1..][..i - 1]));
    } else {
      assert widths[..0] == [];
    }
  }

  lemma {:induction false} FieldsInRange(a: nat, widths: seq<nat>)
    ensures InRange(Fields(a, widths), widths)
    decreases widths
  {
    if widths != [] {
      LowInRange(a, widths[0]);
      FieldsInRange(Shr(a, widths[0]), widths[1..]);
    }
  }

  // Slicing by contiguous extents loses nothing below their total width.
  lemma {:induction false} GlueFields(a: nat, widths: seq<nat>)
    requires a < Pow2(Sum(widths))
    ensures Glue(Fields(a, widths), widths) == a
    decreases widths
  {
    if widths != [] {
      ShrInRange(a, widths[0], Sum(widths[1..]));
      GlueFields(Shr(a, widths[0]), widths[1..]);
      assert Fields(a, widths)[1..] == Fields(Shr(a, widths[0]), widths[1..]);
      SplitJoin(a, widths[0]);
    }
  }

  lemma {:induction false} FieldsGlue(fields: seq<nat>, widths: seq<nat>)
    requires InRange(fields, widths)
    ensures Fields(Glue(fields, widths), widths) == fields && Glue(fields, widths) < Pow2(Sum(widths))
  {
    if widths != [] {
      FieldsGlue(fields[1..], widths[1..]);
      var rest := Glue(fields[1..], widths[1..]);
      JoinSplit(fields[0], widths[0], rest);
      LowOfSmall(fields[0], widths[0]);
      ShrInRange(Join(fields[0], widths[0], rest), widths[0], Sum(widths[1..]));
    }
  }

  // ------------------------------------------------------------ the DRAM mapping

  // Widths in bits, in address order.
  datatype Geometry = Geometry(offset: nat, channel: nat, bankgroup: nat, bank: nat, column: nat, rank: nat, row: nat)
  {
    function Widths(): seq<nat> {
      [offset, channel, bankgroup, bank, column, rank, row]
    }

    function TotalBits(): nat {
      offset + channel + bankgroup + bank + column + rank + row
    }

    // What makes swizzle_bits end.
    predicate HasBanks() {
      bankgroup + bank > 0
    }
  }

  datatype Location = Location(channel: nat, bankgroup: nat, bank: nat, column: nat, rank: nat, row: nat)

  const OFFSET: nat := 0
  const CHANNEL: nat := 1
  const BANKGROUP: nat := 2
  const BANK: nat := 3
  const COLUMN: nat := 4
  const RANK: nat := 5
  const ROW: nat := 6

  function Raw(g: Geometry, a: nat, i: nat): Slice
    requires i < 7
  {
    Field(a, g.Widths(), i)
  }

  function GetChannel(g: Geometry, a: nat): nat {
    Swizzle(Raw(g, a, ROW), 1, 0, Raw(g, a, CHANNEL).value, g.channel, 0)
  }

  function GetBankgroup(g: Geometry, a: nat): nat
    requires g.HasBanks()
  {
    Swizzle(Raw(g, a, ROW), g.bankgroup + g.bank, 0, Raw(g, a, BANKGROUP).value, g.bankgroup, 0)
  }

  function GetBank(g: Geometry, a: nat): nat
    requires g.HasBanks()
  {
    Swizzle(Raw(g, a, ROW), g.bankgroup + g.bank, g.bankgroup, Raw(g, a, BANK).value, g.bank, 0)
  }

  function Decode(g: Geometry, a: nat): Location
    requires g.HasBanks()
  {
    Location(GetChannel(g, a), GetBankgroup(g, a), GetBank(g, a), Raw(g, a, COLUMN).value, Raw(g, a, RANK).value,
             Raw(g, a, ROW).value)
  }

  predicate Fits(g: Geometry, l: Location) {
    && l.channel < Pow2(g.channel) && l.bankgroup < Pow2(g.bankgroup) && l.bank < Pow2(g.bank)
    && l.column < Pow2(g.column) && l.rank < Pow2(g.rank) && l.row < Pow2(g.row)
  }

  function RowSlice(g: Geometry, row: nat): Slice {
    Slice(row, g.TotalBits(), g.TotalBits() - g.row)
  }

  // The address of a location and an offset within its block.
  function Encode(g: Geometry, l: Location, offset: nat): nat
    requires g.HasBanks() && Fits(g, l)
  {
    var row := RowSlice(g, l.row);
    var seg := g.bankgroup + g.bank;
    Glue([offset,
          Swizzle(row, 1, 0, l.channel, g.channel, 0),
          Swizzle(row, seg, 0, l.bankgroup, g.bankgroup, 0),
          Swizzle(row, seg, g.bankgroup, l.bank, g.bank, 0),
          l.column, l.rank, l.row], g.Widths())
  }

  lemma {:induction false} SumWidths(g: Geometry)
    ensures Sum(g.Widths()) == g.TotalBits()
    ensures Sum(g.Widths()[..ROW]) == g.TotalBits() - g.row
  {
    var w := g.Widths();
    SumCons(g.row, []);
    assert [g.row] + [] == [g.row];
    SumCons(g.rank, [g.row]);
    assert [g.rank] + [g.row] == [g.rank, g.row];
    SumCons(g.column, [g.rank, g.row]);
    assert [g.column] + [g.rank, g.row] == [g.column, g.rank, g.row];
    SumCons(g.bank, [g.column, g.rank, g.row]);
    assert [g.bank] + [g.column, g.rank, g.row] == [g.bank, g.column, g.rank, g.row];
    SumCons(g.bankgroup, [g.bank, g.column, g.rank, g.row]);
    assert [g.bankgroup] + [g.bank, g.column, g.rank, g.row] == [g.bankgroup, g.bank, g.column, g.rank, g.row];
    SumCons(g.channel, [g.bankgroup, g.bank, g.column, g.rank, g.row]);
    assert [g.channel] + [g.bankgroup, g.bank, g.column, g.rank, g.row] == [g.channel, g.bankgroup, g.bank, g.column, g.rank, g.row];
    SumCons(g.offset, [g.channel, g.bankgroup, g.bank, g.column, g.rank, g.row]);
    assert w == [g.offset] + [g.channel, g.bankgroup, g.bank, g.column, g.rank, g.row];
    SumSnoc(w[..ROW], g.row);
    assert w[..ROW] + [g.row] == w;
  }

  lemma {:induction false} SumCons(w: nat, ws: seq<nat>)
    ensures Sum([w] + ws) == w + Sum(ws)
  {
    assert ([w] + ws)[1..] == ws;
  }

  // Each field fits, so that the bank index is inside the bank array.
  lemma {:induction false} DecodeFits(g: Geometry, a: nat)
    requires g.HasBanks()
    ensures Fits(g, Decode(g, a))
  {
    hide Swizzle, Pow2, Shr, Low;
    var row := Raw(g, a, ROW);
    SwizzleInRange(row, 1, 0, Raw(g, a, CHANNEL).value, g.channel, 0);
    SwizzleInRange(row, g.bankgroup + g.bank, 0, Raw(g, a, BANKGROUP).value, g.bankgroup, 0);
    SwizzleInRange(row, g.bankgroup + g.bank, g.bankgroup, Raw(g, a, BANK).value, g.bank, 0);
  }

  lemma {:induction false} RowOf(g: Geometry, a: nat)
    ensures Raw(g, a, ROW) == RowSlice(g, Raw(g, a, ROW).value)
  {
    SumWidths(g);
  }

  // Each bank and bank group bit is permuted by its share of the row bits; of
  // the channel bits only the lowest one is permuted, by all row bits.
  lemma {:induction false} FieldsMixRow(g: Geometry, a: nat, j: nat)
    requires g.HasBanks()
    ensures var row, seg := Raw(g, a, ROW).value, g.bankgroup + g.bank;
            && (j < g.bankgroup ==>
                  Bit(GetBankgroup(g, a), j) == (Bit(Raw(g, a, BANKGROUP).value, j) != Parity(row, seg, j, g.row)))
            && (j < g.bank ==>
                  Bit(GetBank(g, a), j) == (Bit(Raw(g, a, BANK).value, j) != Parity(row, seg, g.bankgroup + j, g.row)))
            && Bit(GetChannel(g, a), j) ==
               (Bit(Raw(g, a, CHANNEL).value, j) != (j == 0 < g.channel && Parity(row, 1, 0, g.row)))
  {
    hide Parity, Swizzle, Pow2;
    RowOf(g, a);
    var row, seg := Raw(g, a, ROW), g.bankgroup + g.bank;
    SwizzleMixesRow(row, seg, 0, Raw(g, a, BANKGROUP).value, g.bankgroup, j);
    SwizzleMixesRow(row, seg, g.bankgroup, Raw(g, a, BANK).value, g.bank, j);
    SwizzleMixesRow(row, 1, 0, Raw(g, a, CHANNEL).value, g.channel, j);
  }

  function RawFields(g: Geometry, a: nat): seq<nat> {
    Fields(a, g.Widths())
  }

  lemma {:induction false} RawAre(g: Geometry, a: nat)
    ensures RawFields(g, a) == [Raw(g, a, OFFSET).value, Raw(g, a, CHANNEL).value, Raw(g, a, BANKGROUP).value,
                                Raw(g, a, BANK).value, Raw(g, a, COLUMN).value, Raw(g, a, RANK).value, Raw(g, a, ROW).value]
  {
    hide Fields, Field;
    forall i | 0 <= i < 7 ensures RawFields(g, a)[i] == Raw(g, a, i).value { FieldsAre(a, g.Widths(), i); }
  }

  // Encoding what was decoded gives the address back, for addresses below size().
  lemma {:induction false} EncodeDecode(g: Geometry, a: nat)
    requires g.HasBanks() && a < Pow2(g.TotalBits())
    ensures Fits(g, Decode(g, a)) && Encode(g, Decode(g, a), Raw(g, a, OFFSET).value) == a
  {
    DecodeFits(g, a);
    RowOf(g, a);
    var row, seg := Raw(g, a, ROW), g.bankgroup + g.bank;
    SwizzleTwice(row, 1, 0, Raw(g, a, CHANNEL).value, g.channel, 0);
    SwizzleTwice(row, seg, 0, Raw(g, a, BANKGROUP).value, g.bankgroup, 0);
    SwizzleTwice(row, seg, g.bankgroup, Raw(g, a, BANK).value, g.bank, 0);
    RawAre(g, a);
    SumWidths(g);
    GlueFields(a, g.Widths());
  }

  // Every location and offset has an address that decodes to it.
  lemma {:induction false} DecodeEncode(g: Geometry, l: Location, offset: nat)
    requires g.HasBanks() && Fits(g, l) && offset < Pow2(g.offset)
    ensures var a := Encode(g, l, offset);
            a < Pow2(g.TotalBits()) && Decode(g, a) == l && Raw(g, a, OFFSET).value == offset
  {
    hide Fields, Glue, Swizzle, Pow2, Low, Shr, Field;
    var row, seg := RowSlice(g, l.row), g.bankgroup + g.bank;
    var channel := Swizzle(row, 1, 0, l.channel, g.channel, 0);
    var bankgroup := Swizzle(row, seg, 0, l.bankgroup, g.bankgroup, 0);
    var bank := Swizzle(row, seg, g.bankgroup, l.bank, g.bank, 0);
    SwizzleInRange(row, 1, 0, l.channel, g.channel, 0);
    SwizzleInRange(row, seg, 0, l.bankgroup, g.bankgroup, 0);
    SwizzleInRange(row, seg, g.bankgroup, l.bank, g.bank, 0);
    var fields := [offset, channel, bankgroup, bank, l.column, l.rank, l.row];
    assert InRange(fields, g.Widths());
    FieldsGlue(fields, g.Widths());
    var a := Encode(g, l, offset);
    RawAre(g, a);
    assert Raw(g, a, OFFSET).value == fields[OFFSET] && Raw(g, a, CHANNEL).value == fields[CHANNEL];
    assert Raw(g, a, BANKGROUP).value == fields[BANKGROUP] && Raw(g, a, BANK).value == fields[BANK];
    assert Raw(g, a, COLUMN).value == fields[COLUMN] && Raw(g, a, RANK).value == fields[RANK] && Raw(g, a, ROW).value == fields[ROW];
    RowOf(g, a);
    SwizzleTwice(row, 1, 0, l.channel, g.channel, 0);
    SwizzleTwice(row, seg, 0, l.bankgroup, g.bankgroup, 0);
    SwizzleTwice(row, seg, g.bankgroup, l.bank, g.bank, 0);
    SumWidths(g);
  }

  // ----------------------------------------------------------------- collisions

  predicate IsCollision(g: Geometry, a: nat, b: nat) {
    Shr(a, g.offset) == Shr(b, g.offset)
  }

  lemma {:induction false} SameFieldsAbove(g: Geometry, a: nat, b: nat)
    ensures RawFields(g, a)[1..] == Fields(Shr(a, g.offset), g.Widths()[1..])
    ensures IsCollision(g, a, b) ==> RawFields(g, a)[1..] == RawFields(g, b)[1..]
  {
  }

  // Two addresses of the memory are the same location exactly when they collide.
  lemma {:induction false} CollisionIsSameLocation(g: Geometry, a: nat, b: nat)
    requires g.HasBanks() && a < Pow2(g.TotalBits()) && b < Pow2(g.TotalBits())
    ensures IsCollision(g, a, b) <==> Decode(g, a) == Decode(g, b)
  {
    if IsCollision(g, a, b) {
      CollisionSameLocation(g, a, b);
    } else if Decode(g, a) == Decode(g, b) {
      EncodeDecode(g, a);
      EncodeDecode(g, b);
      EncodeOffset(g, Decode(g, a), Raw(g, a, OFFSET).value, Raw(g, b, OFFSET).value);
    }
  }

  // That colliding addresses are the same location needs no bound.
  lemma {:induction false} CollisionSameLocation(g: Geometry, a: nat, b: nat)
    requires g.HasBanks() && IsCollision(g, a, b)
    ensures Decode(g, a) == Decode(g, b)
  {
    SameFieldsAbove(g, a, b);
    RawAre(g, a);
    RawAre(g, b);
    forall i | 1 <= i < 7 ensures Raw(g, a, i) == Raw(g, b, i) {
      assert RawFields(g, a)[i] == RawFields(g, a)[1..][i - 1];
      assert RawFields(g, b)[i] == RawFields(g, b)[1..][i - 1];
    }
  }

  lemma {:induction false} EncodeOffset(g: Geometry, l: Location, x: nat, y: nat)
    requires g.HasBanks() && Fits(g, l)
    ensures IsCollision(g, Encode(g, l, x), Encode(g, l, y))
  {
    var row, seg, w := RowSlice(g, l.row), g.bankgroup + g.bank, g.Widths();
    var rest := [Swizzle(row, 1, 0, l.channel, g.channel, 0), Swizzle(row, seg, 0, l.bankgroup, g.bankgroup, 0),
                 Swizzle(row, seg, g.bankgroup, l.bank, g.bank, 0), l.column, l.rank, l.row];
    assert ([x] + rest)[1..] == rest && ([y] + rest)[1..] == rest;
    assert Encode(g, l, x) == Glue([x] + rest, w) && Encode(g, l, y) == Glue([y] + rest, w);
    JoinSplit(x, g.offset, Glue(rest, w[1..]));
    JoinSplit(y, g.offset, Glue(rest, w[1..]));
  }

  // --------------------------------------------------------------- bank indices

  function BankgroupIndex(g: Geometry, a: nat): nat
    requires g.HasBanks()
  {
    Raw(g, a, RANK).value * Pow2(g.bankgroup) + GetBankgroup(g, a)
  }

  function BankIndex(g: Geometry, a: nat): nat
    requires g.HasBanks()
  {
    BankgroupIndex(g, a) * Pow2(g.bank) + GetBank(g, a)
  }

  function BankCount(g: Geometry): nat {
    Pow2(g.rank) * Pow2(g.bank) * Pow2(g.bankgroup)
  }

  lemma {:induction false} RowMajor(x: nat, m: nat, y: nat, n: nat)
    requires x < m && y < n
    ensures x * n + y < m * n
  {
    MulMono(x, m, n);
  }

  lemma {:induction false} Reorder(x: nat, y: nat, z: nat)
    ensures (x * z) * y == x * y * z
  {
  }

  // bank_request_index never leaves bank_request, nor bankgroup_request_index
  // bankgroup_readytime, and no two banks share an index.
  lemma {:induction false} BankIndexInRange(g: Geometry, a: nat)
    requires g.HasBanks()
    ensures BankIndex(g, a) < BankCount(g) && BankgroupIndex(g, a) < Pow2(g.rank) * Pow2(g.bankgroup)
  {
    DecodeFits(g, a);
    RowMajor(Raw(g, a, RANK).value, Pow2(g.rank), GetBankgroup(g, a), Pow2(g.bankgroup));
    RowMajor(BankgroupIndex(g, a), Pow2(g.rank) * Pow2(g.bankgroup), GetBank(g, a), Pow2(g.bank));
    Reorder(Pow2(g.rank), Pow2(g.bank), Pow2(g.bankgroup));
  }

  lemma {:induction false} BankIndexInjective(g: Geometry, a: nat, b: nat)
    requires g.HasBanks()
    ensures BankIndex(g, a) == BankIndex(g, b) <==>
            Raw(g, a, RANK).value == Raw(g, b, RANK).value && GetBankgroup(g, a) == GetBankgroup(g, b) && GetBank(g, a) == GetBank(g, b)
  {
    if BankIndex(g, a) == BankIndex(g, b) {
      DecodeFits(g, a);
      DecodeFits(g, b);
      DivUnique(BankIndex(g, a), Pow2(g.bank), BankgroupIndex(g, a), GetBank(g, a));
      DivUnique(BankIndex(g, a), Pow2(g.bank), BankgroupIndex(g, b), GetBank(g, b));
      DivUnique(BankgroupIndex(g, a), Pow2(g.bankgroup), Raw(g, a, RANK).value, GetBankgroup(g, a));
      DivUnique(BankgroupIndex(g, a), Pow2(g.bankgroup), Raw(g, b, RANK).value, GetBankgroup(g, b));
    }
  }
}
