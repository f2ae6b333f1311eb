/**
 The chunk object, whose nested maps the source updates in place, with its readers that loop
 over sub-chunks and heights. Writers are proved against the operations on values, readers
 against the dense map.
 */
module ChunkStore {
  import opened Numbers
  import opened Wrappers
  import opened Chunks
  import opened ChunkSummaries

  method LayersEmpty(layers: Layers) returns (empty: bool)
    ensures empty <==> forall layer :: layer in layers ==> |layers[layer]| == 0
  {
    var todo := layers.Keys;
    while todo != {}
      invariant todo <= layers.Keys
      invariant forall layer :: layer in layers.Keys - todo ==> |layers[layer]| == 0
    {
      var layer :| layer in todo;
      if |layers[layer]| != 0 {
        return false;
      }
      todo := todo - {layer};
    }
    empty := true;
  }

  class ChunkStore {
    const dimension: Dimension
    const airRuntimeID: UInt32
    var subChunks: seq<Layers>
    var biomeOverrides: map<nat, UInt32>
    var defaultBiomeID: UInt32

    ghost function Model(): Chunk
      reads this
    {
      Chunk(dimension, subChunks, biomeOverrides, defaultBiomeID, airRuntimeID)
    }

    ghost predicate Valid()
      reads this
    {
      Tidy(Model())
    }

    constructor (d: Dimension, air: UInt32)
      ensures Valid() && Model() == NewChunk(d, air)
    {
      dimension := WithDefaults(d);
      airRuntimeID := air;
      subChunks := seq(SubChunkCount(WithDefaults(d)), _ => map[]);
      biomeOverrides := map[];
      defaultBiomeID := 0;
      new;
      RunsAreTidy(d, air, []);
    }

    method DeleteRuntimeID(index: nat, x: Byte, y: Int16, z: Byte, layer: Byte)
      requires index < |subChunks|
      modifies this`subChunks
      ensures subChunks == old(subChunks)[index := WithoutBlock(old(subChunks)[index], layer, BlockOffset(x, y, z))]
    {
      var layers := subChunks[index];
      var blocks := LayerBlocks(layers, layer);
      if |blocks| == 0 {
        assert subChunks == subChunks[index := layers];
        return;
      }
      blocks := blocks - {BlockOffset(x, y, z)};
      if |blocks| == 0 {
        subChunks := subChunks[index := layers - {layer}];
      } else {
        subChunks := subChunks[index := layers[layer := blocks]];
      }
    }

    /** Writes a block; a position outside of the chunk is refused and changes nothing. */
    method SetRuntimeID(x: Byte, y: Int16, z: Byte, layer: Byte, runtimeID: UInt32) returns (ok: bool)
      requires Valid()
      modifies this`subChunks
      ensures Valid() && Model() == Chunks.SetRuntimeID(old(Model()), x, y, z, layer, runtimeID)
      ensures ok == InRange(dimension, x, y, z) && (!ok ==> Model() == old(Model()))
    {
      if !InRange(dimension, x, y, z) {
        return false;
      }
      SetKeepsTidy(Model(), x, y, z, layer, runtimeID);
      SubIndexInRange(dimension, y);
      var index := SubIndex(dimension, y);
      ok := true;
      if runtimeID == airRuntimeID {
        DeleteRuntimeID(index, x, y, z, layer);
        return;
      }
      var layers: Layers := subChunks[index];
      var blocks: Blocks := LayerBlocks(layers, layer);
      blocks := blocks[BlockOffset(x, y, z) := runtimeID];
      layers := layers[layer := blocks];
      subChunks := subChunks[index := layers];
    }

    method FillBiomeID(biomeID: UInt32)
      requires Valid()
      modifies this`biomeOverrides, this`defaultBiomeID
      ensures Valid() && Model() == Chunks.FillBiomeID(old(Model()), biomeID)
    {
      defaultBiomeID := biomeID;
      biomeOverrides := map[];
    }

    method SetBiomeID(x: Byte, y: Int16, z: Byte, biomeID: UInt32) returns (ok: bool)
      requires Valid()
      modifies this`biomeOverrides
      ensures Valid() && Model() == Chunks.SetBiomeID(old(Model()), x, y, z, biomeID)
      ensures ok == InRange(dimension, x, y, z) && (!ok ==> Model() == old(Model()))
    {
      if !InRange(dimension, x, y, z) {
        return false;
      }
      var key := BiomeOffset(dimension, x, y, z);
      ok := true;
      if biomeID == defaultBiomeID {
        biomeOverrides := biomeOverrides - {key};
      } else {
        biomeOverrides := biomeOverrides[key := biomeID];
      }
    }

    function BlockAt(x: Byte, y: Int16, z: Byte, layer: Byte): (id: UInt32)
      requires Valid()
      reads this
      ensures id == RuntimeID(Model(), x, y, z, layer)
    {
      if !InRange(dimension, x, y, z) then airRuntimeID
      else
        SubIndexInRange(dimension, y);
        var blocks := LayerBlocks(subChunks[SubIndex(dimension, y)], layer);
        if |blocks| != 0 && BlockOffset(x, y, z) in blocks then blocks[BlockOffset(x, y, z)] else airRuntimeID
    }

    function BiomeAt(x: Byte, y: Int16, z: Byte): (id: UInt32)
      requires Valid()
      reads this
      ensures id == BiomeID(Model(), x, y, z)
    {
      if !InRange(dimension, x, y, z) then defaultBiomeID
      else
        var key := BiomeOffset(dimension, x, y, z);
        if key in biomeOverrides then biomeOverrides[key] else defaultBiomeID
    }

    method IsSubChunkEmpty(index: int) returns (empty: bool)
      requires Valid()
      ensures empty == SubChunkEmpty(Model(), index)
      ensures 0 <= index < |subChunks| ==> (empty <==> AllAir(Model(), index))
    {
      if index < 0 || index >= |subChunks| {
        return true;
      }
      EmptyIffAllAir(Model(), index);
      empty := LayersEmpty(subChunks[index]);
    }

    /** The greatest sub-chunk that is not all air, or 0. */
    method HighestFilledSubChunk() returns (highest: nat)
      requires Valid()
      ensures highest < |subChunks|
      ensures highest > 0 ==> !AllAir(Model(), highest)
      ensures forall index :: highest < index < |subChunks| ==> AllAir(Model(), index)
    {
      var index := |subChunks| - 1;
      while index > 0
        invariant 0 <= index < |subChunks|
        invariant forall i :: index < i < |subChunks| ==> AllAir(Model(), i)
      {
        var empty := IsSubChunkEmpty(index);
        if !empty {
          return index;
        }
        index := index - 1;
      }
      highest := 0;
    }

    method LayerCount(index: int) returns (count: nat)
      requires Valid()
      ensures count == SubChunkLayerCount(Model(), index)
    {
      if index < 0 || index >= |subChunks| {
        return 0;
      }
      var highest: int := -1;
      var todo := subChunks[index].Keys;
      while todo != {}
        invariant todo <= subChunks[index].Keys
        invariant -1 <= highest < 0x100
        invariant highest >= 0 ==> highest in subChunks[index] && |subChunks[index][highest]| != 0
        invariant forall layer :: layer in subChunks[index].Keys - todo && |subChunks[index][layer]| != 0 ==>
                    layer <= highest
      {
        var layer :| layer in todo;
        if |subChunks[index][layer]| != 0 && layer > highest {
          highest := layer;
        }
        todo := todo - {layer};
      }
      count := highest + 1;
      if count > 0 {
        LayersUpToIs(subChunks[index], 0x100, count - 1);
      }
      LayersUpToIs(subChunks[index], 0x100, 0);
    }

    /** The top of a column if it lies in the sub-chunk; otherwise the search goes on below it. */
    method HighestInSubChunk(index: nat, x: Byte, z: Byte, layer: Byte) returns (top: Option<Int16>)
      requires Valid() && index < |subChunks|
      ensures var from := TopFrom(Model(), x, z, layer, SubTop(dimension, index));
              if top.Some? then from == top.value
              else from == TopFrom(Model(), x, z, layer, SubTop(dimension, index - 1))
    {
      var baseY: int := SubY(dimension, index);
      SubTopIs(dimension, index);
      var y: int := 15;
      while y >= 0
        invariant -1 <= y <= 15
        invariant TopFrom(Model(), x, z, layer, baseY + 15) == TopFrom(Model(), x, z, layer, baseY + y)
      {
        var id := BlockAt(x, baseY + y, z, layer);
        if id != airRuntimeID {
          return Some(baseY + y);
        }
        y := y - 1;
      }
      top := None;
    }

    /** The greatest height of a column whose block is not air, or the bottom of the dimension. */
    method HighestBlockY(x: Byte, z: Byte, layer: Byte) returns (top: Int16)
      requires Valid()
      ensures top == ColumnTop(Model(), x, z, layer)
    {
      var index := |subChunks| - 1;
      StartAtTop(Model(), x, z, layer);
      while index >= 0
        invariant -1 <= index < |subChunks| && TopIsUpTo(Model(), x, z, layer, index)
      {
        var found := SearchSubChunk(index, x, z, layer);
        if found.Some? {
          return found.value;
        }
        index := index - 1;
      }
      EndBelow(Model(), x, z, layer);
      top := dimension.minY;
    }

    /** The same search in one sub-chunk, which is skipped when it is empty. */
    method SearchSubChunk(index: nat, x: Byte, z: Byte, layer: Byte) returns (top: Option<Int16>)
      requires Valid() && index < |subChunks| && TopIsUpTo(Model(), x, z, layer, index)
      ensures if top.Some? then top.value == ColumnTop(Model(), x, z, layer)
              else TopIsUpTo(Model(), x, z, layer, index - 1)
    {
      var empty := IsSubChunkEmpty(index);
      if empty {
        SkipEmpty(Model(), index, x, z, layer);
        return None;
      }
      top := HighestInSubChunk(index, x, z, layer);
    }
  }
}
