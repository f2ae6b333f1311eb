/**
 The summaries that the encoder asks a chunk for, and what they mean for the dense map the
 chunk stands for.
 */
module ChunkSummaries {
  import opened Numbers
  import opened Bits
  import opened Chunks

  // ---------- empty sub-chunks ----------

  predicate SubChunkEmpty(c: Chunk, index: int) {
    0 <= index < |c.subs| ==> forall layer :: layer in c.subs[index] ==> |c.subs[index][layer]| == 0
  }

  ghost predicate LayerIsAir(c: Chunk, index: int, layer: Byte)
    requires Shaped(c)
  {
    forall x, y, z :: InRange(c.dimension, x, y, z) && SubIndex(c.dimension, y) == index
      ==> RuntimeID(c, x, y, z, layer) == c.air
  }

  /** Every in-range position of the sub-chunk is air, on every layer. */
  ghost predicate AllAir(c: Chunk, index: int)
    requires Shaped(c)
  {
    forall layer :: LayerIsAir(c, index, layer)
  }

  /** A stored offset is the offset of an in-range position of its sub-chunk. */
  lemma StoredPosition(c: Chunk, index: int, layer: Byte, offset: nat) returns (x: Byte, y: Int16, z: Byte)
    requires Tidy(c) && 0 <= index < |c.subs| && layer in c.subs[index] && offset in c.subs[index][layer]
    ensures InRange(c.dimension, x, y, z) && SubIndex(c.dimension, y) == index && BlockOffset(x, y, z) == offset
    ensures RuntimeID(c, x, y, z, layer) == c.subs[index][layer][offset] != c.air
  {
    assert TidyLayers(c.dimension, c.air, index, c.subs[index]);
    assert StoredWell(c.dimension, c.air, index, offset, c.subs[index][layer][offset]);
    x, z, y := offset / 0x100, (offset / 0x10) % 16, SubY(c.dimension, index) + offset % 16;
    OffsetOfPosition(c.dimension, index, offset);
  }

  lemma OffsetOfPosition(d: Dimension, index: int, offset: nat)
    requires d.minY < d.maxY && 0 <= index < SubChunkCount(d) && offset < 0x1000
    ensures var y := SubY(d, index) + offset % 16;
            && SubIndex(d, y) == index
            && BlockOffset(offset / 0x100, y, (offset / 0x10) % 16) == offset
  {
    var y := SubY(d, index) + offset % 16;
    DivByFactor(offset % 16, 16, MinSubY(d) + index);
    assert (offset / 0x100) % 16 == offset / 0x100;
    assert 0x100 * (offset / 0x100) + 0x10 * ((offset / 0x10) % 16) + offset % 16 == offset;
  }

  lemma LayerIsAirIff(c: Chunk, index: int, layer: Byte)
    requires Tidy(c) && 0 <= index < |c.subs|
    ensures LayerIsAir(c, index, layer) <==> layer !in c.subs[index]
  {
    if layer in c.subs[index] {
      var blocks := c.subs[index][layer];
      assert |blocks.Keys| != 0;
      var offset :| offset in blocks.Keys;
      var x, y, z := StoredPosition(c, index, layer, offset);
    }
  }

  /** A sub-chunk is reported empty exactly when all its in-range positions are air. */
  lemma EmptyIffAllAir(c: Chunk, index: int)
    requires Tidy(c) && 0 <= index < |c.subs|
    ensures SubChunkEmpty(c, index) <==> AllAir(c, index)
  {
    forall layer
      ensures LayerIsAir(c, index, layer) <==> layer !in c.subs[index]
    {
      LayerIsAirIff(c, index, layer);
    }
    assert TidyLayers(c.dimension, c.air, index, c.subs[index]);
  }

  // ---------- layer count ----------

  /** One past the highest of the first `k` layers that holds blocks. */
  function LayersUpTo(layers: Layers, k: nat): (n: nat)
    requires k <= 0x100
    ensures n <= k
  {
    if k == 0 then 0
    else if k - 1 in layers && |layers[k - 1]| != 0 then k
    else LayersUpTo(layers, k - 1)
  }

  function SubChunkLayerCount(c: Chunk, index: int): (n: nat)
    ensures n <= 0x100
  {
    if 0 <= index < |c.subs| then LayersUpTo(c.subs[index], 0x100) else 0
  }

  lemma {:induction false} LayersUpToIs(layers: Layers, k: nat, layer: Byte)
    requires k <= 0x100
    ensures var n := LayersUpTo(layers, k);
            && (n > 0 ==> n - 1 in layers && |layers[n - 1]| != 0)
            && (n <= layer < k ==> layer !in layers || |layers[layer]| == 0)
  {
    if k > 0 {
      LayersUpToIs(layers, k - 1, layer);
    }
  }

  /** The layer count is one past the highest layer with a block that is not air. */
  lemma LayerCountIs(c: Chunk, index: int, layer: Byte)
    requires Tidy(c) && 0 <= index < |c.subs|
    ensures var n := SubChunkLayerCount(c, index);
            && (n > 0 ==> !LayerIsAir(c, index, n - 1))
            && (n <= layer ==> LayerIsAir(c, index, layer))
  {
    var n := SubChunkLayerCount(c, index);
    LayersUpToIs(c.subs[index], 0x100, layer);
    LayerIsAirIff(c, index, layer);
    assert TidyLayers(c.dimension, c.air, index, c.subs[index]);
    if n > 0 {
      LayerIsAirIff(c, index, n - 1);
    }
  }

  // ---------- column tops ----------

  /** The greatest height up to `y` with a block that is not air, or the bottom of the dimension. */
  function TopFrom(c: Chunk, x: Byte, z: Byte, layer: Byte, y: int): int
    requires Shaped(c) && y < 0x8000
    decreases y - c.dimension.minY
  {
    if y <= c.dimension.minY then c.dimension.minY
    else if RuntimeID(c, x, y, z, layer) != c.air then y
    else TopFrom(c, x, z, layer, y - 1)
  }

  function ColumnTop(c: Chunk, x: Byte, z: Byte, layer: Byte): int
    requires Shaped(c)
  {
    TopFrom(c, x, z, layer, c.dimension.maxY)
  }

  lemma {:induction false} TopFromIs(c: Chunk, x: Byte, z: Byte, layer: Byte, y: int)
    requires Shaped(c) && y < 0x8000
    ensures var top := TopFrom(c, x, z, layer, y);
            && c.dimension.minY <= top && (c.dimension.minY <= y ==> top <= y)
            && (top > c.dimension.minY ==> RuntimeID(c, x, top, z, layer) != c.air)
            && forall h: Int16 :: top < h <= y ==> RuntimeID(c, x, h, z, layer) == c.air
    decreases y - c.dimension.minY
  {
    if y > c.dimension.minY && RuntimeID(c, x, y, z, layer) == c.air {
      TopFromIs(c, x, z, layer, y - 1);
    }
  }

  /** The column top is the greatest height in the dimension that is not air, or its bottom. */
  lemma ColumnTopIs(c: Chunk, x: Byte, z: Byte, layer: Byte)
    requires Shaped(c)
    ensures var top := ColumnTop(c, x, z, layer);
            && c.dimension.minY <= top <= c.dimension.maxY
            && (top > c.dimension.minY ==> RuntimeID(c, x, top, z, layer) != c.air)
            && forall h: Int16 :: h > top ==> RuntimeID(c, x, h, z, layer) == c.air
  {
    TopFromIs(c, x, z, layer, c.dimension.maxY);
  }

  /** Heights that are air can be skipped. */
  lemma {:induction false} SkipAir(c: Chunk, x: Byte, z: Byte, layer: Byte, lo: int, hi: int)
    requires Shaped(c) && lo <= hi < 0x8000
    requires forall h: Int16 :: lo < h <= hi ==> RuntimeID(c, x, h, z, layer) == c.air
    ensures TopFrom(c, x, z, layer, hi) == TopFrom(c, x, z, layer, lo)
    decreases hi - lo
  {
    if lo < hi && hi > c.dimension.minY {
      SkipAir(c, x, z, layer, lo, hi - 1);
    }
  }

  /** An empty sub-chunk has nothing but air, also at heights outside of the dimension. */
  lemma EmptyIsAir(c: Chunk, index: int, x: Byte, y: Int16, z: Byte, layer: Byte)
    requires Shaped(c) && 0 <= index < |c.subs| && SubChunkEmpty(c, index)
    requires SubY(c.dimension, index) <= y < SubY(c.dimension, index) + 16
    ensures RuntimeID(c, x, y, z, layer) == c.air
  {
  }

  /** The highest height of a sub-chunk; one below the first, the height under the dimension. */
  function SubTop(d: Dimension, index: int): (y: int)
    requires d.minY < d.maxY && -1 <= index < SubChunkCount(d)
    ensures y < 0x8000
  {
    (MinSubY(d) + index) * 16 + 15
  }

  lemma SubTopIs(d: Dimension, index: int)
    requires d.minY < d.maxY && 0 <= index < SubChunkCount(d)
    ensures SubTop(d, index) == SubY(d, index) + 15 && SubTop(d, index - 1) == SubY(d, index) - 1
  {
  }

  /** The column top if it lies in one of the sub-chunks up to `index`, and otherwise the bottom. */
  ghost predicate TopIsUpTo(c: Chunk, x: Byte, z: Byte, layer: Byte, index: int)
    requires Shaped(c) && -1 <= index < |c.subs|
  {
    ColumnTop(c, x, z, layer) == TopFrom(c, x, z, layer, SubTop(c.dimension, index))
  }

  lemma EndBelow(c: Chunk, x: Byte, z: Byte, layer: Byte)
    requires Shaped(c) && TopIsUpTo(c, x, z, layer, -1)
    ensures ColumnTop(c, x, z, layer) == c.dimension.minY
  {
  }

  lemma StartAtTop(c: Chunk, x: Byte, z: Byte, layer: Byte)
    requires Shaped(c)
    ensures TopIsUpTo(c, x, z, layer, |c.subs| - 1)
  {
    SkipAir(c, x, z, layer, c.dimension.maxY, SubTop(c.dimension, |c.subs| - 1));
  }

  lemma SkipEmpty(c: Chunk, index: int, x: Byte, z: Byte, layer: Byte)
    requires Shaped(c) && 0 <= index < |c.subs| && SubChunkEmpty(c, index)
    ensures TopFrom(c, x, z, layer, SubTop(c.dimension, index))
            == TopFrom(c, x, z, layer, SubTop(c.dimension, index - 1))
  {
    SubTopIs(c.dimension, index);
    var lo, hi := SubTop(c.dimension, index - 1), SubTop(c.dimension, index);
    forall h: Int16 | lo < h <= hi
      ensures RuntimeID(c, x, h, z, layer) == c.air
    {
      EmptyIsAir(c, index, x, h, z, layer);
    }
    SkipAir(c, x, z, layer, lo, hi);
  }
}
