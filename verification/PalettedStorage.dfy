/**
 Paletted storage: a list of 32-bit values as a palette of its distinct values and one index
 per value, packed into 32-bit words at one of nine widths. Widths that do not divide 32 leave
 padding bits at the top of each word.
 */
module PalettedStorage {
  import opened Numbers
  import opened Bits
  import opened Varint
  import opened Sequencing

  const WIDTHS := [0, 1, 2, 3, 4, 5, 6, 8, 16]
  const NETWORK_ENCODING := 1

  // ---------- palette ----------

  /** The distinct values in the order of their first occurrence. */
  function Palette(values: seq<UInt32>): seq<UInt32> {
    if values == [] then []
    else
      var palette := Palette(values[..|values| - 1]);
      var last := values[|values| - 1];
      if last in palette then palette else palette + [last]
  }

  predicate Distinct(palette: seq<UInt32>) {
    forall i, j :: 0 <= i < j < |palette| ==> palette[i] != palette[j]
  }

  lemma {:induction false} PaletteIsDistinct(values: seq<UInt32>)
    ensures Distinct(Palette(values))
  {
    if values != [] {
      PaletteIsDistinct(values[..|values| - 1]);
    }
  }

  lemma {:induction false} PaletteHasExactlyTheValues(values: seq<UInt32>, v: UInt32)
    ensures v in Palette(values) <==> v in values
    ensures |Palette(values)| <= |values|
  {
    if values != [] {
      var front, last := values[..|values| - 1], values[|values| - 1];
      PaletteHasExactlyTheValues(front, v);
      PaletteHasExactlyTheValues(front, last);
      assert values == front + [last];
    }
  }

  function Position(palette: seq<UInt32>, v: UInt32): (i: nat)
    requires v in palette
    ensures i < |palette| && palette[i] == v
  {
    if palette[0] == v then 0 else 1 + Position(palette[1..], v)
  }

  lemma {:induction false} PositionUnique(palette: seq<UInt32>, i: nat)
    requires Distinct(palette) && i < |palette|
    ensures Position(palette, palette[i]) == i
  {
  }

  /** An index is a `uint16`, so the position of a value is cut to 16 bits. */
  function IndexOf(values: seq<UInt32>, i: nat): UInt16
    requires i < |values|
  {
    PaletteHasExactlyTheValues(values, values[i]);
    Position(Palette(values), values[i]) % 0x1_0000
  }

  function Indices(values: seq<UInt32>): (r: seq<UInt16>)
    ensures |r| == |values|
  {
    seq(|values|, i requires 0 <= i < |values| => IndexOf(values, i))
  }

  // ---------- widths ----------

  /** The least of the nine widths that has room for `count` indices; 16 when none has. */
  function Width(count: nat): nat {
    if count <= 1 then 0
    else if count <= 2 then 1
    else if count <= 4 then 2
    else if count <= 8 then 3
    else if count <= 16 then 4
    else if count <= 32 then 5
    else if count <= 64 then 6
    else if count <= 256 then 8
    else 16
  }

  lemma Pow2Values()
    ensures Pow2(0) == 1 && Pow2(1) == 2 && Pow2(2) == 4 && Pow2(3) == 8 && Pow2(4) == 16
    ensures Pow2(5) == 32 && Pow2(6) == 64 && Pow2(8) == 256 && Pow2(16) == 0x1_0000 && Pow2(32) == 0x1_0000_0000
  {
    assert Pow2(8) == 256;
    Pow2Sum(8, 8);
    Pow2Sum(16, 16);
  }

  /** Every index below the count, cut to 16 bits, fits the width. */
  lemma WidthFits(count: nat, position: nat)
    requires position < count
    ensures position % 0x1_0000 < Pow2(Width(count))
    ensures 0 < Width(count) ==> Width(count) in {1, 2, 3, 4, 5, 6, 8, 16}
  {
    Pow2Values();
    if position >= 0x1_0000 {
      assert Width(count) == 16;
    } else {
      assert position % 0x1_0000 == position;
    }
  }

  /** How many indices a width has room for. */
  function Room(k: nat): (r: nat)
    requires k < |WIDTHS|
    ensures r == Pow2(WIDTHS[k])
  {
    Pow2Values();
    [1, 2, 4, 8, 0x10, 0x20, 0x40, 0x100, 0x1_0000][k]
  }

  /** The first width with room enough is the one chosen. */
  lemma FirstWithRoom(count: nat, k: nat)
    requires k <= |WIDTHS| && (k < |WIDTHS| ==> count <= Room(k)) && (k > 0 ==> count > Room(k - 1))
    ensures Width(count) == if k < |WIDTHS| then WIDTHS[k] else 16
  {
  }

  method PaletteBits(valueCount: nat) returns (bits: nat)
    ensures bits == Width(valueCount)
  {
    for k := 0 to |WIDTHS|
      invariant k > 0 ==> valueCount > Room(k - 1)
    {
      if valueCount <= Pow2(WIDTHS[k]) {
        FirstWithRoom(valueCount, k);
        return WIDTHS[k];
      }
    }
    FirstWithRoom(valueCount, |WIDTHS|);
    bits := 16;
  }

  /** The width is the least of the nine that has room for all indices, or 16 when none has. */
  lemma WidthIsLeast(count: nat, other: nat)
    ensures Width(count) in {0, 1, 2, 3, 4, 5, 6, 8, 16}
    ensures count <= 0x1_0000 ==> count <= Pow2(Width(count))
    ensures count > 0x1_0000 ==> Width(count) == 16
    ensures other in {0, 1, 2, 3, 4, 5, 6, 8, 16} && other < Width(count) ==> Pow2(other) < count
  {
    Pow2Values();
  }

  // ---------- packing ----------

  /** The number of indices in a word. */
  function PerWord(bits: nat): nat
    requires bits > 0
  {
    32 / bits
  }

  /** Fields laid side by side from the lowest bit up. */
  function Pack(fields: seq<nat>, bits: nat): nat {
    if fields == [] then 0 else fields[0] + Pow2(bits) * Pack(fields[1..], bits)
  }

  ghost predicate AllFit(fields: seq<nat>, bits: nat) {
    forall i :: 0 <= i < |fields| ==> fields[i] < Pow2(bits)
  }

  lemma {:induction false} PackBound(fields: seq<nat>, bits: nat)
    requires AllFit(fields, bits)
    ensures Pack(fields, bits) < Pow2(bits * |fields|)
  {
    if fields != [] {
      PackBound(fields[1..], bits);
      var p, rest, q := Pow2(bits), Pack(fields[1..], bits), Pow2(bits * (|fields| - 1));
      assert bits * |fields| == bits + bits * (|fields| - 1);
      Pow2Sum(bits, bits * (|fields| - 1));
      MulMonotonic(p, rest + 1, q);
      MulDistributes(p, rest, 1);
    }
  }

  lemma ScaleSum(p: int, rest: int, x: int, q: int)
    ensures p * (rest + x * q) == p * rest + x * (p * q)
  {
  }

  lemma {:induction false} PackAppend(fields: seq<nat>, x: nat, bits: nat)
    ensures Pack(fields + [x], bits) == Pack(fields, bits) + x * Pow2(bits * |fields|)
  {
    if fields == [] {
      assert (fields + [x])[1..] == [];
    } else {
      assert (fields + [x])[1..] == fields[1..] + [x];
      PackAppend(fields[1..], x, bits);
      var p, rest, q := Pow2(bits), Pack(fields[1..], bits), Pow2(bits * (|fields| - 1));
      assert bits * |fields| == bits + bits * (|fields| - 1);
      Pow2Sum(bits, bits * (|fields| - 1));
      ScaleSum(p, rest, x, q);
    }
  }

  /** Shifting a field down and masking it gives the field back. */
  lemma {:induction false} UnpackField(fields: seq<nat>, bits: nat, j: nat)
    requires AllFit(fields, bits) && j < |fields|
    ensures (Pack(fields, bits) / Pow2(j * bits)) % Pow2(bits) == fields[j]
  {
    var p, rest := Pow2(bits), Pack(fields[1..], bits);
    DivByFactor(fields[0], p, rest);
    if j == 0 {
      assert Pow2(j * bits) == 1;
    } else {
      UnpackField(fields[1..], bits, j - 1);
      assert j * bits == bits + (j - 1) * bits;
      Pow2Sum(bits, (j - 1) * bits);
      DivTwice(Pack(fields, bits), p, Pow2((j - 1) * bits));
    }
  }

  // ---------- words ----------

  /** The number of words for `n` indices, `per` to a word. */
  function WordCount(n: nat, per: nat): nat
    requires per > 0
  {
    (n + per - 1) / per
  }

  function Clamp(k: int, n: nat): nat {
    if k < 0 then 0 else if k > n then n else k
  }

  /** The indices that go into word `w`, of the first `n`. */
  function Window(indices: seq<nat>, per: nat, w: nat, n: nat): seq<nat>
    requires n <= |indices|
  {
    indices[Clamp(per * w, n)..Clamp(per * w + per, n)]
  }

  lemma IndexWord(n: nat, per: nat, i: nat)
    requires per > 0 && i < n
    ensures 0 <= i / per < WordCount(n, per) && 0 <= i % per < per
    ensures i == per * (i / per) + i % per
  {
    DivMod(i, per);
    MulDistributes(per, i / per, 1);
    DivAtLeast(n + per - 1, per, i / per + 1);
  }

  function Words(indices: seq<nat>, bits: nat, per: nat): (r: seq<nat>)
    requires per > 0
    ensures |r| == WordCount(|indices|, per)
  {
    seq(WordCount(|indices|, per), w requires w >= 0 => Pack(Window(indices, per, w, |indices|), bits))
  }

  /** Field `j` of a word as the decoder takes it out: shift, mask, and cut to 16 bits. */
  function Extract(word: nat, j: nat, bits: nat): nat {
    ((word / Pow2(j * bits)) % Pow2(bits)) % 0x1_0000
  }

  function Unpack(words: seq<nat>, bits: nat, per: nat, n: nat): (r: seq<nat>)
    requires per > 0 && |words| == WordCount(n, per)
    ensures |r| == n
  {
    seq(n, i requires 0 <= i < n =>
      IndexWord(n, per, i);
      Extract(words[i / per], i % per, bits))
  }

  lemma WindowFits(indices: seq<nat>, bits: nat, per: nat, w: nat, n: nat)
    requires n <= |indices| && AllFit(indices, bits)
    ensures AllFit(Window(indices, per, w, n), bits)
    ensures |Window(indices, per, w, n)| <= per
  {
  }

  lemma UnpackAt(indices: seq<nat>, bits: nat, per: nat, w: nat, j: nat)
    requires j < per && per * w + j < |indices| && AllFit(indices, bits)
    requires indices[per * w + j] < 0x1_0000
    ensures Extract(Pack(Window(indices, per, w, |indices|), bits), j, bits) == indices[per * w + j]
  {
    WindowFits(indices, bits, per, w, |indices|);
    UnpackField(Window(indices, per, w, |indices|), bits, j);
  }

  lemma UnpackWords(indices: seq<nat>, bits: nat, per: nat)
    requires per > 0 && AllFit(indices, bits)
    requires forall i :: 0 <= i < |indices| ==> indices[i] < 0x1_0000
    ensures Unpack(Words(indices, bits, per), bits, per, |indices|) == indices
  {
    forall i | 0 <= i < |indices|
      ensures Unpack(Words(indices, bits, per), bits, per, |indices|)[i] == indices[i]
    {
      IndexWord(|indices|, per, i);
      UnpackAt(indices, bits, per, i / per, i % per);
    }
  }

  // ---------- bytes ----------

  function WordBytes(w: UInt32): seq<Byte> {
    [w % 0x100, (w / 0x100) % 0x100, (w / 0x1_0000) % 0x100, w / 0x100_0000]
  }

  function ReadWord(src: seq<Byte>): Read<UInt32> {
    if |src| < 4 then Failed
    else Got(src[0] + 0x100 * (src[1] as int) + 0x1_0000 * (src[2] as int) + 0x100_0000 * (src[3] as int), src[4..])
  }

  lemma WordDigits(w: UInt32)
    ensures w == w % 0x100 + 0x100 * ((w / 0x100) % 0x100) + 0x1_0000 * ((w / 0x1_0000) % 0x100)
            + 0x100_0000 * (w / 0x100_0000)
  {
    var a, b, c := w / 0x100, w / 0x1_0000, w / 0x100_0000;
    assert w == w % 0x100 + 0x100 * a;
    assert a == a % 0x100 + 0x100 * b by {
      DivTwice(w, 0x100, 0x100);
    }
    assert b == b % 0x100 + 0x100 * c by {
      DivTwice(w, 0x1_0000, 0x100);
    }
  }

  lemma WordRoundTrip(w: UInt32, tail: seq<Byte>)
    ensures ReadWord(WordBytes(w) + tail) == Got(w, tail)
  {
    WordDigits(w);
    var src := WordBytes(w) + tail;
    assert src[4..] == tail;
    assert src[0] == WordBytes(w)[0] && src[1] == WordBytes(w)[1] && src[2] == WordBytes(w)[2]
           && src[3] == WordBytes(w)[3];
  }

  lemma WordsRoundTrip(words: seq<UInt32>, tail: seq<Byte>)
    ensures ReadAll(ReadWord, WriteAll(WordBytes, words) + tail, |words|) == Got(words, tail)
  {
    forall w: UInt32, rest
      ensures ReadWord(WordBytes(w) + rest) == Got(w, rest)
    {
      WordRoundTrip(w, rest);
    }
    ReadAllWritten(WordBytes, ReadWord, words, tail);
  }

  function WriteEntry(value: UInt32): seq<Byte> {
    WriteVarint32(ToInt32(value))
  }

  function ReadEntry(src: seq<Byte>): Read<UInt32> {
    match ReadVarint32(src)
    case Failed => Failed
    case Got(value, rest) => Got(ToUInt32(value), rest)
  }

  lemma EntryRoundTrip(value: UInt32, tail: seq<Byte>)
    ensures ReadEntry(WriteEntry(value) + tail) == Got(value, tail)
  {
    VarintRoundTrip(ToInt32(value), tail);
  }

  lemma PaletteRoundTrip(palette: seq<UInt32>, tail: seq<Byte>)
    ensures ReadAll(ReadEntry, WriteAll(WriteEntry, palette) + tail, |palette|) == Got(palette, tail)
  {
    forall v: UInt32, rest
      ensures ReadEntry(WriteEntry(v) + rest) == Got(v, rest)
    {
      EntryRoundTrip(v, rest);
    }
    ReadAllWritten(WriteEntry, ReadEntry, palette, tail);
  }

  // ---------- storage ----------

  lemma {:induction false} IndicesFit(values: seq<UInt32>)
    ensures var bits := Width(|Palette(values)|);
            && (0 < bits ==> bits in {1, 2, 3, 4, 5, 6, 8, 16})
            && AllFit(Indices(values), bits)
  {
    var count := |Palette(values)|;
    forall i | 0 <= i < |values|
      ensures Indices(values)[i] < Pow2(Width(count))
    {
      PaletteHasExactlyTheValues(values, values[i]);
      WidthFits(count, Position(Palette(values), values[i]));
    }
    if count > 0 {
      WidthFits(count, 0);
    }
  }

  lemma PerWordFits(bits: nat)
    requires bits in {1, 2, 3, 4, 5, 6, 8, 16}
    ensures PerWord(bits) > 0 && bits * PerWord(bits) <= 32
  {
  }

  lemma PackBelowWord(fields: seq<nat>, bits: nat, per: nat)
    requires AllFit(fields, bits) && |fields| <= per && bits * per <= 32
    ensures Pack(fields, bits) < 0x1_0000_0000
  {
    PackBound(fields, bits);
    MulMonotonic(bits, |fields|, per);
    Pow2Monotonic(bits * |fields|, 32);
    Pow2Values();
  }

  /** Every word fits in 32 bits. */
  lemma WordsFit(indices: seq<nat>, bits: nat, per: nat)
    requires per > 0 && bits * per <= 32 && AllFit(indices, bits)
    ensures forall w :: 0 <= w < |Words(indices, bits, per)| ==> 0 <= Words(indices, bits, per)[w] < 0x1_0000_0000
  {
    forall w | 0 <= w < |Words(indices, bits, per)|
      ensures 0 <= Words(indices, bits, per)[w] < 0x1_0000_0000
    {
      WindowFits(indices, bits, per, w, |indices|);
      PackBelowWord(Window(indices, per, w, |indices|), bits, per);
    }
  }

  function IndexWords(values: seq<UInt32>): seq<UInt32>
    requires 0 < Width(|Palette(values)|)
  {
    var bits := Width(|Palette(values)|);
    IndicesFit(values);
    PerWordFits(bits);
    WordsFit(Indices(values), bits, PerWord(bits));
    Words(Indices(values), bits, PerWord(bits))
  }

  /** Index words, palette length and palette. */
  function PackedBytes(words: seq<UInt32>, palette: seq<UInt32>): seq<Byte> {
    WriteAll(WordBytes, words) + (WriteVarint32(ToInt32(|palette| % 0x1_0000_0000)) + WriteAll(WriteEntry, palette))
  }

  function EncodeStorage(values: seq<UInt32>): seq<Byte> {
    var palette := Palette(values);
    var bits := Width(|palette|);
    [bits * 2 + NETWORK_ENCODING]
    + (if bits == 0 then WriteAll(WriteEntry, palette) else PackedBytes(IndexWords(values), palette))
  }

  /** Reads index words, palette length and palette. */
  function DecodePacked(src: seq<Byte>, bits: nat, per: nat, n: nat): (r: Read<seq<UInt32>>)
    requires per > 0
    ensures r.Got? ==> |r.value| == n
  {
    match ReadAll(ReadWord, src, WordCount(n, per))
    case Failed => Failed
    case Got(words, rest) =>
      match ReadVarint32(rest)
      case Failed => Failed
      case Got(count, rest') => if count < 0 then Failed else Lookup(Unpack(words, bits, per, n), rest', count)
  }

  /** The reference decoder, for a storage of `n` values. */
  function DecodeStorage(src: seq<Byte>, n: nat): (r: Read<seq<UInt32>>)
    ensures r.Got? ==> |r.value| == n
  {
    if src == [] || src[0] / 2 > 32 then Failed
    else if src[0] / 2 == 0 then
      match ReadAll(ReadEntry, src[1..], 1)
      case Failed => Failed
      case Got(palette, rest) => Got(seq(n, _ => palette[0]), rest)
    else DecodePacked(src[1..], src[0] / 2, PerWord(src[0] / 2), n)
  }

  /** Reads the palette and looks every index up in it; an index outside of it is an error. */
  function Lookup(indices: seq<nat>, src: seq<Byte>, count: nat): (r: Read<seq<UInt32>>)
    ensures r.Got? ==> |r.value| == |indices|
  {
    match ReadAll(ReadEntry, src, count)
    case Failed => Failed
    case Got(palette, rest) =>
      if forall i :: 0 <= i < |indices| ==> indices[i] < count
      then Got(seq(|indices|, i requires 0 <= i < |indices| => palette[indices[i]]), rest)
      else Failed
  }

  /** What the decoder makes of the encoded indices. */
  function Decoded(values: seq<UInt32>): (r: seq<UInt32>)
    ensures |r| == |values|
  {
    seq(|values|, i requires 0 <= i < |values| =>
      PaletteHasExactlyTheValues(values, values[i]);
      Palette(values)[IndexOf(values, i)])
  }

  lemma DecodeSingleValue(values: seq<UInt32>, tail: seq<Byte>)
    requires values != [] && |Palette(values)| == 1
    ensures DecodeStorage(EncodeStorage(values) + tail, |values|) == Got(Decoded(values), tail)
  {
    var palette := Palette(values);
    var src := EncodeStorage(values) + tail;
    assert src[0] == 1 && src[1..] == WriteAll(WriteEntry, palette) + tail;
    PaletteRoundTrip(palette, tail);
    assert Decoded(values) == seq(|values|, _ => palette[0]);
  }

  lemma Regroup<T>(a: seq<T>, b: seq<T>, c: seq<T>, tail: seq<T>)
    ensures (a + (b + c)) + tail == a + (b + (c + tail))
  {
  }

  lemma CountFitsInt32(count: nat)
    requires count <= INT32_MAX
    ensures ToInt32(count % 0x1_0000_0000) == count
  {
  }

  lemma PackedBytesAre(words: seq<UInt32>, palette: seq<UInt32>)
    requires |palette| <= INT32_MAX
    ensures PackedBytes(words, palette)
            == WriteAll(WordBytes, words) + (WriteVarint32(|palette|) + WriteAll(WriteEntry, palette))
  {
    CountFitsInt32(|palette|);
  }

  lemma DecodePackedBytes(words: seq<UInt32>, palette: seq<UInt32>, tail: seq<Byte>, bits: nat, per: nat, n: nat)
    requires per > 0 && |words| == WordCount(n, per) && |palette| <= INT32_MAX
    ensures DecodePacked(PackedBytes(words, palette) + tail, bits, per, n)
            == Lookup(Unpack(words, bits, per, n), WriteAll(WriteEntry, palette) + tail, |palette|)
  {
    var rest := WriteAll(WriteEntry, palette) + tail;
    var rest' := WriteVarint32(|palette|) + rest;
    PackedBytesAre(words, palette);
    Regroup(WriteAll(WordBytes, words), WriteVarint32(|palette|), WriteAll(WriteEntry, palette), tail);
    assert ReadAll(ReadWord, WriteAll(WordBytes, words) + rest', |words|) == Got(words, rest') by {
      WordsRoundTrip(words, rest');
    }
    assert ReadVarint32(rest') == Got(|palette|, rest) by {
      VarintRoundTrip(|palette|, rest);
    }
  }

  lemma DecodeAfterHeader(bits: nat, src: seq<Byte>, tail: seq<Byte>, n: nat)
    requires 0 < bits <= 32
    ensures DecodeStorage(([bits * 2 + 1] + src) + tail, n) == DecodePacked(src + tail, bits, PerWord(bits), n)
  {
    var all := ([bits * 2 + 1] + src) + tail;
    assert all[0] / 2 == bits;
    assert all[1..] == src + tail;
  }

  lemma EncodedSeveralValues(values: seq<UInt32>, tail: seq<Byte>)
    requires 1 < |Palette(values)|
    ensures var bits := Width(|Palette(values)|);
            DecodeStorage(EncodeStorage(values) + tail, |values|)
            == DecodePacked(PackedBytes(IndexWords(values), Palette(values)) + tail, bits, PerWord(bits), |values|)
  {
    var bits := Width(|Palette(values)|);
    assert EncodeStorage(values) == [bits * 2 + 1] + PackedBytes(IndexWords(values), Palette(values));
    DecodeAfterHeader(bits, PackedBytes(IndexWords(values), Palette(values)), tail, |values|);
  }

  lemma DecodeSeveralValues(values: seq<UInt32>, tail: seq<Byte>)
    requires 1 < |Palette(values)| <= INT32_MAX
    ensures DecodeStorage(EncodeStorage(values) + tail, |values|) == Got(Decoded(values), tail)
  {
    var palette, bits := Palette(values), Width(|Palette(values)|);
    EncodedSeveralValues(values, tail);
    IndicesFit(values);
    PerWordFits(bits);
    var per := PerWord(bits);
    DecodePackedBytes(IndexWords(values), palette, tail, bits, per, |values|);
    UnpackWords(Indices(values), bits, per);
    LookupIndices(values, tail);
  }

  lemma IndexInPalette(values: seq<UInt32>, i: nat)
    requires i < |values|
    ensures IndexOf(values, i) < |Palette(values)|
  {
  }

  lemma LookupIndices(values: seq<UInt32>, tail: seq<Byte>)
    ensures Lookup(Indices(values), WriteAll(WriteEntry, Palette(values)) + tail, |Palette(values)|)
            == Got(Decoded(values), tail)
  {
    var palette := Palette(values);
    PaletteRoundTrip(palette, tail);
    forall i | 0 <= i < |values|
      ensures Indices(values)[i] < |palette|
    {
      IndexInPalette(values, i);
    }
    var r := Lookup(Indices(values), WriteAll(WriteEntry, palette) + tail, |palette|);
    assert r.value == Decoded(values);
  }

  /** Any list with at least one value and no more than `int32` palette entries decodes to `Decoded`. */
  lemma DecodeEncoded(values: seq<UInt32>, tail: seq<Byte>)
    requires values != [] && |Palette(values)| <= INT32_MAX
    ensures DecodeStorage(EncodeStorage(values) + tail, |values|) == Got(Decoded(values), tail)
  {
    PaletteHasExactlyTheValues(values, values[0]);
    if |Palette(values)| == 1 {
      DecodeSingleValue(values, tail);
    } else {
      DecodeSeveralValues(values, tail);
    }
  }

  /** Indices are wide enough exactly for palettes of up to 65536 values. */
  lemma {:induction false} DecodedIsExactIff(values: seq<UInt32>)
    ensures Decoded(values) == values <==> |Palette(values)| <= 0x1_0000
  {
    var palette := Palette(values);
    if |palette| <= 0x1_0000 {
      forall i | 0 <= i < |values|
        ensures Decoded(values)[i] == values[i]
      {
        PaletteHasExactlyTheValues(values, values[i]);
        assert IndexOf(values, i) == Position(palette, values[i]);
      }
    } else {
      var v := palette[0x1_0000];
      PaletteHasExactlyTheValues(values, v);
      PaletteIsDistinct(values);
      PositionUnique(palette, 0x1_0000);
      var i :| 0 <= i < |values| && values[i] == v;
      assert Decoded(values)[i] == palette[0];
    }
  }

  /**
   The storage decodes to the list it was made from, at every width and leaving what follows
   untouched, exactly when the list is not empty and has at most 65536 distinct values.
   */
  lemma StorageRoundTrip(values: seq<UInt32>, tail: seq<Byte>)
    requires |Palette(values)| <= INT32_MAX
    ensures values != [] && |Palette(values)| <= 0x1_0000
            ==> DecodeStorage(EncodeStorage(values) + tail, |values|) == Got(values, tail)
    ensures values != [] && |Palette(values)| > 0x1_0000
            ==> DecodeStorage(EncodeStorage(values) + tail, |values|) != Got(values, tail)
    ensures values == [] ==> DecodeStorage(EncodeStorage(values), |values|).Failed?
  {
    if values != [] {
      DecodeEncoded(values, tail);
      DecodedIsExactIff(values);
    } else {
      assert EncodeStorage(values) == [1];
    }
  }

  /** The first byte is the width, shifted by one, with the bit set that marks network encoding. */
  lemma HeaderIs(values: seq<UInt32>)
    ensures EncodeStorage(values) != []
    ensures EncodeStorage(values)[0] % 2 == 1 && EncodeStorage(values)[0] / 2 == Width(|Palette(values)|)
  {
  }

  /** A word is written as four bytes, the lowest first. */
  lemma WordBytesAre(w: UInt32)
    ensures |WordBytes(w)| == 4 && Base256(WordBytes(w)) == w
  {
    WordDigits(w);
    Base256OfFour(w % 0x100, (w / 0x100) % 0x100, (w / 0x1_0000) % 0x100, w / 0x100_0000);
  }

  lemma Base256OfFour(a: nat, b: nat, c: nat, d: nat)
    ensures Base256([a, b, c, d]) == a + 0x100 * b + 0x1_0000 * c + 0x100_0000 * d
  {
    assert [a, b, c, d][1..] == [b, c, d] && [b, c, d][1..] == [c, d] && [c, d][1..] == [d] && [d][1..] == [];
    assert Base256([d]) == d && Base256([c, d]) == c + 0x100 * d && Base256([b, c, d]) == b + 0x100 * Base256([c, d]);
  }

  // ---------- the loops of the encoder ----------

  method PaletteIndices(values: seq<UInt32>) returns (palette: seq<UInt32>, indices: seq<UInt16>)
    ensures palette == Palette(values) && indices == Indices(values)
  {
    var lookup: map<UInt32, UInt16> := map[];
    palette, indices := [], [];
    for i := 0 to |values|
      invariant palette == Palette(values[..i])
      invariant |indices| == i
      invariant forall v :: v in lookup <==> v in palette
      invariant forall v :: v in palette ==> lookup[v] == Position(palette, v) % 0x1_0000
      invariant forall k :: 0 <= k < i ==> values[k] in palette && indices[k] == lookup[values[k]]
    {
      assert values[..i + 1][..i] == values[..i];
      var value := values[i];
      if value !in lookup {
        NewPosition(palette, value);
        lookup := lookup[value := |palette| % 0x1_0000];
        palette := palette + [value];
      }
      indices := indices + [lookup[value]];
    }
    assert values[..|values|] == values;
  }

  /** Appending a new value leaves the positions of the others alone. */
  lemma NewPosition(palette: seq<UInt32>, value: UInt32)
    requires value !in palette
    ensures Position(palette + [value], value) == |palette|
    ensures forall v :: v in palette ==> Position(palette + [value], v) == Position(palette, v)
  {
    if palette != [] {
      NewPosition(palette[1..], value);
      assert (palette + [value])[1..] == palette[1..] + [value];
    }
  }

  /** Index `per * k + j` goes to the end of window `k` and to no other. */
  lemma WindowGrows(indices: seq<nat>, per: nat, k: nat, j: nat, w: nat)
    requires j < per && per * k + j < |indices|
    ensures var i := per * k + j;
            && |Window(indices, per, k, i)| == j
            && Window(indices, per, k, i + 1) == Window(indices, per, k, i) + [indices[i]]
            && (w != k ==> Window(indices, per, w, i + 1) == Window(indices, per, w, i))
  {
    if w < k {
      MulMonotonic(per, w + 1, k);
      MulDistributes(per, w, 1);
    } else if w > k {
      MulMonotonic(per, k + 1, w);
      MulDistributes(per, k, 1);
    }
  }

  lemma OrAboveFields(fields: seq<nat>, x: nat, bits: nat, shift: nat)
    requires AllFit(fields, bits) && shift == bits * |fields|
    ensures Or(Pack(fields, bits), x * Pow2(shift)) == Pack(fields + [x], bits)
  {
    PackBound(fields, bits);
    PackAppend(fields, x, bits);
    OrAbove(Pack(fields, bits), x, shift);
  }

  /** One step of packing: the index is or-ed in above the fields already there. */
  lemma OrField(fields: seq<nat>, x: nat, bits: nat)
    requires AllFit(fields, bits)
    ensures Or(Pack(fields, bits), x * Pow2(|fields| * bits)) == Pack(fields + [x], bits)
  {
    MulCommutes(bits, |fields|);
    OrAboveFields(fields, x, bits, bits * |fields|);
  }

  ghost predicate PackedUpTo(words: seq<nat>, indices: seq<nat>, bits: nat, per: nat, i: nat)
    requires per > 0 && i <= |indices|
  {
    && |words| == WordCount(|indices|, per)
    && forall w :: 0 <= w < |words| ==> words[w] == Pack(Window(indices, per, w, i), bits)
  }

  /** Or-ing index `i == per * k + j` into word `k` extends its window. */
  lemma PackedWord(indices: seq<nat>, bits: nat, per: nat, k: nat, j: nat, i: nat)
    requires i == per * k + j && j < per && i < |indices| && AllFit(indices, bits)
    ensures Or(Pack(Window(indices, per, k, i), bits), indices[i] * Pow2(j * bits))
         == Pack(Window(indices, per, k, i + 1), bits)
  {
    WindowFits(indices, bits, per, k, i);
    WindowGrows(indices, per, k, j, k);
    OrField(Window(indices, per, k, i), indices[i], bits);
  }

  lemma PackStep(words: seq<nat>, indices: seq<nat>, bits: nat, per: nat, i: nat)
    requires per > 0 && i < |indices| && AllFit(indices, bits)
    requires PackedUpTo(words, indices, bits, per, i)
    ensures 0 <= i / per < |words| && 0 <= i % per
    ensures PackedUpTo(words[i / per := Or(words[i / per], indices[i] * Pow2((i % per) * bits))], indices, bits, per,
                       i + 1)
  {
    IndexWord(|indices|, per, i);
    var k, j := i / per, i % per;
    PackStepAt(words, indices, bits, per, k, j, i, Or(words[k], indices[i] * Pow2(j * bits)));
  }

  lemma PackStepAt(words: seq<nat>, indices: seq<nat>, bits: nat, per: nat, k: nat, j: nat, i: nat, word: nat)
    requires i == per * k + j && j < per && k < |words| && i < |indices| && AllFit(indices, bits)
    requires PackedUpTo(words, indices, bits, per, i) && word == Or(words[k], indices[i] * Pow2(j * bits))
    ensures PackedUpTo(words[k := word], indices, bits, per, i + 1)
  {
    PackedWord(indices, bits, per, k, j, i);
    assert words[k] == Pack(Window(indices, per, k, i), bits);
    OneWordChanges(words, indices, bits, per, k, j, i, word);
  }

  lemma OneWordChanges(words: seq<nat>, indices: seq<nat>, bits: nat, per: nat, k: nat, j: nat, i: nat, word: nat)
    requires i == per * k + j && j < per && k < |words| && i < |indices|
    requires PackedUpTo(words, indices, bits, per, i) && word == Pack(Window(indices, per, k, i + 1), bits)
    ensures PackedUpTo(words[k := word], indices, bits, per, i + 1)
  {
    forall w | 0 <= w < |words| && w != k
      ensures Window(indices, per, w, i + 1) == Window(indices, per, w, i)
    {
      WindowGrows(indices, per, k, j, w);
    }
  }

  lemma NothingPacked(indices: seq<nat>, bits: nat, per: nat)
    requires per > 0
    ensures PackedUpTo(seq(WordCount(|indices|, per), _ => 0), indices, bits, per, 0)
  {
  }

  lemma AllPacked(words: seq<nat>, indices: seq<nat>, bits: nat, per: nat)
    requires per > 0 && PackedUpTo(words, indices, bits, per, |indices|)
    ensures words == Words(indices, bits, per)
  {
  }

  /** Ors one masked index into its word. */
  method PackIndex(words: seq<nat>, indices: seq<UInt16>, bits: nat, per: nat, i: nat) returns (words': seq<nat>)
    requires per > 0 && i < |indices| && AllFit(indices, bits) && PackedUpTo(words, indices, bits, per, i)
    ensures PackedUpTo(words', indices, bits, per, i + 1)
  {
    PackStep(words, indices, bits, per, i);
    MaskedIndex(indices, bits, i);
    var wordIndex, bitOffset := i / per, (i % per) * bits;
    words' := words[wordIndex := Or(words[wordIndex], (indices[i] % Pow2(bits)) * Pow2(bitOffset))];
  }

  method PackIndices(indices: seq<UInt16>, bitsPerIndex: nat) returns (words: seq<nat>)
    requires bitsPerIndex in {1, 2, 3, 4, 5, 6, 8, 16} && AllFit(indices, bitsPerIndex)
    ensures PerWord(bitsPerIndex) > 0 && words == Words(indices, bitsPerIndex, PerWord(bitsPerIndex))
  {
    PerWordFits(bitsPerIndex);
    var indicesPerWord := PerWord(bitsPerIndex);
    words := seq(WordCount(|indices|, indicesPerWord), _ => 0);
    NothingPacked(indices, bitsPerIndex, indicesPerWord);
    for i := 0 to |indices|
      invariant PackedUpTo(words, indices, bitsPerIndex, indicesPerWord, i)
    {
      words := PackIndex(words, indices, bitsPerIndex, indicesPerWord, i);
    }
    AllPacked(words, indices, bitsPerIndex, indicesPerWord);
  }

  /** The mask changes nothing, because the width was chosen to fit. */
  lemma MaskedIndex(indices: seq<nat>, bits: nat, i: nat)
    requires i < |indices| && AllFit(indices, bits)
    ensures indices[i] % Pow2(bits) == indices[i]
  {
    DivByFactor(indices[i], Pow2(bits), 0);
  }

  method WritePackedIndices(ghost values: seq<UInt32>, indices: seq<UInt16>, bitsPerIndex: nat) returns (out: seq<Byte>)
    requires indices == Indices(values) && 0 < bitsPerIndex == Width(|Palette(values)|)
    ensures out == WriteAll(WordBytes, IndexWords(values))
  {
    IndicesFit(values);
    var packed := PackIndices(indices, bitsPerIndex);
    WordsFit(indices, bitsPerIndex, PerWord(bitsPerIndex)) by {
      PerWordFits(bitsPerIndex);
    }
    var words: seq<UInt32> := packed;
    out := [];
    for w := 0 to |words|
      invariant out == WriteAll(WordBytes, words[..w])
    {
      assert words[..w + 1] == words[..w] + [words[w]];
      WriteAllAppend(WordBytes, words[..w], words[w]);
      out := out + WordBytes(words[w]);
    }
    assert words[..|words|] == words == IndexWords(values);
  }

  method WritePalette(palette: seq<UInt32>) returns (out: seq<Byte>)
    ensures out == WriteAll(WriteEntry, palette)
  {
    out := [];
    for i := 0 to |palette|
      invariant out == WriteAll(WriteEntry, palette[..i])
    {
      assert palette[..i + 1] == palette[..i] + [palette[i]];
      WriteAllAppend(WriteEntry, palette[..i], palette[i]);
      out := out + WriteEntry(palette[i]);
    }
    assert palette[..|palette|] == palette;
  }

  method EncodePalettedStorage(buf: seq<Byte>, values: seq<UInt32>) returns (out: seq<Byte>)
    ensures out == buf + EncodeStorage(values)
  {
    var palette, indices := PaletteIndices(values);
    var bitsPerIndex := PaletteBits(|palette|);
    IndicesFit(values);
    var entries := WritePalette(palette);
    var body := entries;
    if bitsPerIndex != 0 {
      var packed := WritePackedIndices(values, indices, bitsPerIndex);
      body := packed + (WriteVarint32(ToInt32(|palette| % 0x1_0000_0000)) + entries);
    }
    out := buf + ([bitsPerIndex * 2 + NETWORK_ENCODING] + body);
  }
}
