/**
 Height maps: for a sub-chunk, where the top of each column lies relative to it.
 */
module HeightMaps {
  import opened Numbers
  import opened Chunks
  import opened ChunkSummaries
  import ChunkStore

  datatype HeightMap = TooHigh | TooLow | HasData(data: seq<int>)

  function ClampHeight(h: int): int {
    if h < -1 then -1 else if h > 16 then 16 else h
  }

  /** The sub-chunk of a column's top on the first layer. */
  function TopIndex(c: Chunk, x: Byte, z: Byte): int
    requires Shaped(c)
  {
    ColumnTopIs(c, x, z, 0);
    SubIndex(c.dimension, ColumnTop(c, x, z, 0))
  }

  /** The height of a column's top above the bottom of a sub-chunk, clamped to -1..16. */
  function RelativeTop(c: Chunk, index: int, x: Byte, z: Byte): int
    requires Shaped(c) && 0 <= index < |c.subs|
  {
    ClampHeight(ColumnTop(c, x, z, 0) - SubY(c.dimension, index))
  }

  /** The top of every column lies in a higher sub-chunk. */
  ghost predicate AllTopsAbove(c: Chunk, index: int)
    requires Shaped(c)
  {
    forall x, z :: 0 <= x < 16 && 0 <= z < 16 ==> TopIndex(c, x, z) > index
  }

  /** The top of every column lies in a lower sub-chunk. */
  ghost predicate AllTopsBelow(c: Chunk, index: int)
    requires Shaped(c)
  {
    forall x, z :: 0 <= x < 16 && 0 <= z < 16 ==> TopIndex(c, x, z) < index
  }

  /** The clamped height also says in which direction the top lies. */
  lemma RelativeTopIs(c: Chunk, index: int, x: Byte, z: Byte)
    requires Shaped(c) && 0 <= index < |c.subs|
    ensures var top, other := ColumnTop(c, x, z, 0), TopIndex(c, x, z);
            RelativeTop(c, index, x, z)
            == if other > index then 16 else if other < index then -1 else top - SubY(c.dimension, index)
  {
  }

  /** Column `i` of the map has been visited by a scan that is about to visit `(x, z)`. */
  predicate Visited(i: nat, x: nat, z: nat) {
    i % 16 < x || (i % 16 == x && i / 16 < z)
  }

  ghost predicate Scanned(c: Chunk, index: int, x: nat, z: nat, data: seq<int>, higher: bool, lower: bool)
    requires Shaped(c) && 0 <= index < |c.subs|
  {
    && |data| == 0x100
    && (forall i :: 0 <= i < 0x100 && Visited(i, x, z) ==> data[i] == RelativeTop(c, index, i % 16, i / 16))
    && (higher <==> forall i :: 0 <= i < 0x100 && Visited(i, x, z) ==> TopIndex(c, i % 16, i / 16) > index)
    && (lower <==> forall i :: 0 <= i < 0x100 && Visited(i, x, z) ==> TopIndex(c, i % 16, i / 16) < index)
  }

  lemma ColumnNumber(x: nat, z: nat)
    requires x < 16 && z < 16
    ensures (z * 16 + x) % 16 == x && (z * 16 + x) / 16 == z
  {
  }

  lemma VisitNext(i: nat, x: nat, z: nat)
    requires i < 0x100 && x < 16 && z < 16
    ensures Visited(i, x, z + 1) <==> Visited(i, x, z) || i == z * 16 + x
  {
  }

  lemma ScanStep(c: Chunk, index: int, x: nat, z: nat, data: seq<int>, higher: bool, lower: bool)
    requires Shaped(c) && 0 <= index < |c.subs| && x < 16 && z < 16
    requires Scanned(c, index, x, z, data, higher, lower)
    ensures Scanned(c, index, x, z + 1, data[z * 16 + x := RelativeTop(c, index, x, z)],
                    higher && TopIndex(c, x, z) > index, lower && TopIndex(c, x, z) < index)
  {
    ColumnNumber(x, z);
    forall i | 0 <= i < 0x100
      ensures Visited(i, x, z + 1) <==> Visited(i, x, z) || i == z * 16 + x
    {
      VisitNext(i, x, z);
    }
    var k := z * 16 + x;
    assert Visited(k, x, z + 1);
  }

  lemma ScanRow(c: Chunk, index: int, x: nat, data: seq<int>, higher: bool, lower: bool)
    requires Shaped(c) && 0 <= index < |c.subs|
    requires Scanned(c, index, x, 16, data, higher, lower)
    ensures Scanned(c, index, x + 1, 0, data, higher, lower)
  {
  }

  lemma ScanDone(c: Chunk, index: int, data: seq<int>, higher: bool, lower: bool)
    requires Shaped(c) && 0 <= index < |c.subs|
    requires Scanned(c, index, 16, 0, data, higher, lower)
    ensures higher <==> AllTopsAbove(c, index)
    ensures lower <==> AllTopsBelow(c, index)
    ensures forall x, z :: 0 <= x < 16 && 0 <= z < 16 ==> data[z * 16 + x] == RelativeTop(c, index, x, z)
  {
    assert forall i :: 0 <= i < 0x100 ==> Visited(i, 16, 0);
    forall x, z | 0 <= x < 16 && 0 <= z < 16
      ensures data[z * 16 + x] == RelativeTop(c, index, x, z)
      ensures higher ==> TopIndex(c, x, z) > index
      ensures lower ==> TopIndex(c, x, z) < index
    {
      ColumnNumber(x, z);
      assert Visited(z * 16 + x, 16, 0);
    }
  }

  method VisitColumn(chunk: ChunkStore.ChunkStore, index: int, x: Byte, z: Byte, data: seq<int>, higher: bool,
                     lower: bool)
    returns (data': seq<int>, higher': bool, lower': bool)
    requires chunk.Valid() && 0 <= index < |chunk.subChunks| && x < 16 && z < 16
    requires Scanned(chunk.Model(), index, x, z, data, higher, lower)
    ensures Scanned(chunk.Model(), index, x, z + 1, data', higher', lower')
  {
    higher', lower' := higher, lower;
    var y := chunk.HighestBlockY(x, z, 0);
    var otherIndex := SubIndex(chunk.dimension, y);
    var value := RelativeHeight(chunk.dimension, index, y);
    RelativeTopIs(chunk.Model(), index, x, z);
    if otherIndex > index {
      lower' := false;
    } else if otherIndex < index {
      higher' := false;
    } else {
      lower', higher' := false, false;
    }
    data' := data[z * 16 + x := value];
    ScanStep(chunk.Model(), index, x, z, data, higher, lower);
  }

  /** What the map shows for a top: its height within the sub-chunk, or on which side it lies. */
  function RelativeHeight(d: Dimension, index: int, y: Int16): int
    requires d.minY < d.maxY && 0 <= index < SubChunkCount(d)
  {
    if SubIndex(d, y) > index then 16 else if SubIndex(d, y) < index then -1 else y - SubY(d, index)
  }

  /**
   Too high or too low exactly when all tops lie on that side; otherwise the clamped height of
   every top, at position `z << 4 | x`.
   */
  method SubChunkHeightMap(chunk: ChunkStore.ChunkStore, index: int) returns (r: HeightMap)
    requires chunk.Valid() && 0 <= index < |chunk.subChunks|
    ensures r.TooHigh? <==> AllTopsAbove(chunk.Model(), index)
    ensures r.TooLow? <==> AllTopsBelow(chunk.Model(), index)
    ensures r.HasData? ==> |r.data| == 0x100
    ensures r.HasData? ==> forall x, z :: 0 <= x < 16 && 0 <= z < 16 ==>
              r.data[z * 16 + x] == RelativeTop(chunk.Model(), index, x, z)
  {
    ghost var c := chunk.Model();
    var data: seq<int> := seq(0x100, _ => 0);
    var higher, lower := true, true;
    for x := 0 to 16
      invariant Scanned(c, index, x, 0, data, higher, lower)
    {
      for z := 0 to 16
        invariant Scanned(c, index, x, z, data, higher, lower)
      {
        data, higher, lower := VisitColumn(chunk, index, x, z, data, higher, lower);
      }
      ScanRow(c, index, x, data, higher, lower);
    }
    ScanDone(c, index, data, higher, lower);
    if higher {
      assert TopIndex(c, 0, 0) > index;
      return TooHigh;
    }
    if lower {
      assert TopIndex(c, 0, 0) < index;
      return TooLow;
    }
    r := HasData(data);
  }
}
