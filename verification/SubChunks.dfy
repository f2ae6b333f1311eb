/**
 What the server sends of a chunk: sub-chunks with one paletted storage per layer, the biomes
 of all sub-chunks, and height maps. A client that decodes them reads the chunk's own blocks,
 biomes and column tops.
 */
module SubChunks {
  import opened Numbers
  import opened Varint
  import opened Sequencing
  import opened PalettedStorage
  import opened Chunks
  import opened ChunkSummaries
  import ChunkStore

  const SUB_CHUNK_VERSION := 9
  const STORAGE_SIZE := 0x1000

  // ---------- storages ----------

  /** The coordinates in a sub-chunk of storage position `x << 8 | z << 4 | y`. */
  function XOf(i: nat): (x: Byte)
    requires i < STORAGE_SIZE
    ensures x <= 15
  {
    i / 0x100
  }

  function ZOf(i: nat): (z: Byte)
    ensures z <= 15
  {
    (i / 0x10) % 16
  }

  function YOf(i: nat): (y: Byte)
    ensures y <= 15
  {
    i % 16
  }

  function PositionOf(x: Byte, y: Byte, z: Byte): (i: nat)
    requires x <= 15 && y <= 15 && z <= 15
    ensures i < STORAGE_SIZE && XOf(i) == x && YOf(i) == y && ZOf(i) == z
  {
    x * 0x100 + z * 0x10 + y
  }

  function LayerValues(c: Chunk, index: int, layer: Byte): (r: seq<UInt32>)
    requires Shaped(c) && 0 <= index < |c.subs|
    ensures |r| == STORAGE_SIZE
  {
    seq(STORAGE_SIZE, i requires 0 <= i < STORAGE_SIZE =>
      RuntimeID(c, XOf(i), SubY(c.dimension, index) + YOf(i), ZOf(i), layer))
  }

  function BiomeValues(c: Chunk, index: int): (r: seq<UInt32>)
    requires Shaped(c) && 0 <= index < |c.subs|
    ensures |r| == STORAGE_SIZE
  {
    seq(STORAGE_SIZE, i requires 0 <= i < STORAGE_SIZE =>
      BiomeID(c, XOf(i), SubY(c.dimension, index) + YOf(i), ZOf(i)))
  }

  lemma LayerValueIs(c: Chunk, index: int, layer: Byte, i: nat, x: Byte, y: Byte, z: Byte)
    requires Shaped(c) && 0 <= index < |c.subs| && i < STORAGE_SIZE && x == XOf(i) && y == YOf(i) && z == ZOf(i)
    ensures LayerValues(c, index, layer)[i] == RuntimeID(c, x, SubY(c.dimension, index) + y, z, layer)
  {
  }

  lemma BiomeValueIs(c: Chunk, index: int, i: nat, x: Byte, y: Byte, z: Byte)
    requires Shaped(c) && 0 <= index < |c.subs| && i < STORAGE_SIZE && x == XOf(i) && y == YOf(i) && z == ZOf(i)
    ensures BiomeValues(c, index)[i] == BiomeID(c, x, SubY(c.dimension, index) + y, z)
  {
  }

  lemma LayerValueAt(c: Chunk, index: int, layer: Byte, x: Byte, y: Byte, z: Byte)
    requires Shaped(c) && 0 <= index < |c.subs| && x <= 15 && y <= 15 && z <= 15
    ensures LayerValues(c, index, layer)[PositionOf(x, y, z)] == RuntimeID(c, x, SubY(c.dimension, index) + y, z, layer)
  {
    LayerValueIs(c, index, layer, PositionOf(x, y, z), x, y, z);
  }

  lemma BiomeValueAt(c: Chunk, index: int, x: Byte, y: Byte, z: Byte)
    requires Shaped(c) && 0 <= index < |c.subs| && x <= 15 && y <= 15 && z <= 15
    ensures BiomeValues(c, index)[PositionOf(x, y, z)] == BiomeID(c, x, SubY(c.dimension, index) + y, z)
  {
    BiomeValueIs(c, index, PositionOf(x, y, z), x, y, z);
  }

  function DecodeFullStorage(src: seq<Byte>): Read<seq<UInt32>> {
    DecodeStorage(src, STORAGE_SIZE)
  }

  lemma StorageUndoes(values: seq<UInt32>)
    requires |values| == STORAGE_SIZE
    ensures Undoes(EncodeStorage, DecodeFullStorage, values)
  {
    PaletteHasExactlyTheValues(values, values[0]);
    forall tail
      ensures DecodeFullStorage(EncodeStorage(values) + tail) == Got(values, tail)
    {
      StorageRoundTrip(values, tail);
    }
  }

  ghost predicate FullStorages(storages: seq<seq<UInt32>>) {
    forall i :: 0 <= i < |storages| ==> |storages[i]| == STORAGE_SIZE
  }

  lemma StoragesRoundTrip(storages: seq<seq<UInt32>>, tail: seq<Byte>)
    requires FullStorages(storages)
    ensures ReadAll(DecodeFullStorage, WriteAll(EncodeStorage, storages) + tail, |storages|) == Got(storages, tail)
  {
    forall i | 0 <= i < |storages|
      ensures Undoes(EncodeStorage, DecodeFullStorage, storages[i])
    {
      StorageUndoes(storages[i]);
    }
    ReadAllWritten(EncodeStorage, DecodeFullStorage, storages, tail);
  }

  // ---------- sub-chunks ----------

  function LayerStorages(c: Chunk, index: int, count: nat): (r: seq<seq<UInt32>>)
    requires Shaped(c) && 0 <= index < |c.subs| && count <= 0x100
    ensures |r| == count && FullStorages(r)
  {
    seq(count, layer requires 0 <= layer < count => LayerValues(c, index, layer))
  }

  function SubChunkBytes(c: Chunk, index: int): seq<Byte>
    requires Shaped(c) && 0 <= index < |c.subs|
  {
    var count := SubChunkLayerCount(c, index);
    [SUB_CHUNK_VERSION, count % 0x100, (index + MinSubY(c.dimension)) % 0x100]
    + WriteAll(EncodeStorage, LayerStorages(c, index, count))
  }

  /** A decoded sub-chunk: the number of the sub-chunk in its column, and its layers. */
  datatype SubChunk = SubChunk(number: int, layers: seq<seq<UInt32>>)

  /** A byte as a signed number. */
  function Signed(b: Byte): int {
    if b < 0x80 then b else b - 0x100
  }

  /** The reference decoder: the number of a sub-chunk and all its layers. */
  function DecodeSubChunk(src: seq<Byte>): Read<SubChunk> {
    if |src| < 3 || src[0] != 9 then Failed
    else
      match ReadAll(DecodeFullStorage, src[3..], src[1])
      case Failed => Failed
      case Got(layers, rest) => Got(SubChunk(Signed(src[2]), layers), rest)
  }

  lemma DecodeAfterVersion(count: Byte, number: Byte, body: seq<Byte>, layers: seq<seq<UInt32>>)
    requires ReadAll(DecodeFullStorage, body, count) == Got(layers, [])
    ensures DecodeSubChunk([SUB_CHUNK_VERSION, count, number] + body) == Got(SubChunk(Signed(number), layers), [])
  {
    var src := [SUB_CHUNK_VERSION, count, number] + body;
    assert src[3..] == body;
  }

  lemma StoragesAlone(storages: seq<seq<UInt32>>)
    requires FullStorages(storages)
    ensures ReadAll(DecodeFullStorage, WriteAll(EncodeStorage, storages), |storages|) == Got(storages, [])
  {
    StoragesRoundTrip(storages, []);
    assert WriteAll(EncodeStorage, storages) + [] == WriteAll(EncodeStorage, storages);
  }

  lemma DecodeSubChunkBytes(c: Chunk, index: int)
    requires Shaped(c) && 0 <= index < |c.subs| && SubChunkLayerCount(c, index) <= 0xff
    ensures var count := SubChunkLayerCount(c, index);
            var number := Signed((index + MinSubY(c.dimension)) % 0x100);
            DecodeSubChunk(SubChunkBytes(c, index)) == Got(SubChunk(number, LayerStorages(c, index, count)), [])
  {
    var count, number := SubChunkLayerCount(c, index), (index + MinSubY(c.dimension)) % 0x100;
    ByteStays(count);
    DecodeStorages(SubChunkBytes(c, index), count, number, LayerStorages(c, index, count));
  }

  lemma ByteStays(count: nat)
    requires count <= 0xff
    ensures count % 0x100 == count
  {
  }

  lemma DecodeStorages(src: seq<Byte>, count: Byte, number: Byte, storages: seq<seq<UInt32>>)
    requires count == |storages| && FullStorages(storages)
    requires src == [SUB_CHUNK_VERSION, count, number] + WriteAll(EncodeStorage, storages)
    ensures DecodeSubChunk(src) == Got(SubChunk(Signed(number), storages), [])
  {
    StoragesAlone(storages);
    DecodeAfterVersion(count, number, WriteAll(EncodeStorage, storages), storages);
  }

  /** A number survives the byte exactly when it is a signed 8-bit number. */
  lemma SignedFits(n: int)
    ensures Signed(n % 0x100) == n <==> -0x80 <= n < 0x80
  {
  }

  /**
   The number in an encoded sub-chunk says where it lies, 16 heights to a number, exactly when it
   fits a signed byte; in the overworld it always does.
   */
  lemma NumberIsHeightIff(c: Chunk, index: int)
    requires Shaped(c) && 0 <= index < |c.subs| && SubChunkLayerCount(c, index) <= 0xff
    ensures var decoded := DecodeSubChunk(SubChunkBytes(c, index));
            && decoded.Got?
            && (16 * decoded.value.number == SubY(c.dimension, index) <==> -0x800 <= SubY(c.dimension, index) < 0x800)
            && (c.dimension == Dimension(-64, 319) ==> 16 * decoded.value.number == SubY(c.dimension, index))
  {
    DecodeSubChunkBytes(c, index);
    SignedFits(index + MinSubY(c.dimension));
  }

  /** Heights of a sub-chunk that are in range belong to it. */
  lemma HeightInSubChunk(c: Chunk, index: int, y: Byte)
    requires Shaped(c) && 0 <= index < |c.subs| && y <= 15
    ensures SubIndex(c.dimension, SubY(c.dimension, index) + y) == index
  {
  }

  /**
   Decoding an encoded sub-chunk gives, on every layer and at every position, the chunk's own
   block; layers above the encoded ones hold only air.
   */
  lemma SubChunkRoundTrip(c: Chunk, index: int, layer: Byte, x: Byte, y: Byte, z: Byte)
    requires Tidy(c) && 0 <= index < |c.subs| && SubChunkLayerCount(c, index) <= 0xff
    requires x <= 15 && y <= 15 && z <= 15
    ensures var decoded := DecodeSubChunk(SubChunkBytes(c, index));
            var block := RuntimeID(c, x, SubY(c.dimension, index) + y, z, layer);
            && decoded.Got? && decoded.rest == []
            && if layer < |decoded.value.layers|
               then && |decoded.value.layers[layer]| == 0x1000
                    && decoded.value.layers[layer][x * 0x100 + z * 0x10 + y] == block
               else block == c.air
  {
    DecodeSubChunkBytes(c, index);
    if layer < SubChunkLayerCount(c, index) {
      LayerValueAt(c, index, layer, x, y, z);
    } else {
      LayerCountIs(c, index, layer);
      HeightInSubChunk(c, index, y);
    }
  }

  method EncodeBlockStorage(buf: seq<Byte>, chunk: ChunkStore.ChunkStore, index: int, layer: Byte)
    returns (out: seq<Byte>)
    requires chunk.Valid() && 0 <= index < |chunk.subChunks|
    ensures out == buf + EncodeStorage(LayerValues(chunk.Model(), index, layer))
  {
    var baseY := SubY(chunk.dimension, index);
    ghost var expected := LayerValues(chunk.Model(), index, layer);
    var values: seq<UInt32> := [];
    for i := 0 to STORAGE_SIZE
      invariant |values| == i && forall k :: 0 <= k < i ==> values[k] == expected[k]
    {
      var id := chunk.BlockAt(XOf(i), baseY + YOf(i), ZOf(i), layer);
      values := values + [id];
    }
    assert values == expected;
    out := EncodePalettedStorage(buf, values);
  }

  /** A header followed by the first layers. */
  function LayersAfter(head: seq<Byte>, c: Chunk, index: int, count: nat): seq<Byte>
    requires Shaped(c) && 0 <= index < |c.subs| && count <= 0x100
  {
    head + WriteAll(EncodeStorage, LayerStorages(c, index, count))
  }

  lemma NoLayers(head: seq<Byte>, c: Chunk, index: int)
    requires Shaped(c) && 0 <= index < |c.subs|
    ensures LayersAfter(head, c, index, 0) == head
  {
  }

  lemma OneMoreLayer(head: seq<Byte>, c: Chunk, index: int, layer: Byte)
    requires Shaped(c) && 0 <= index < |c.subs|
    ensures LayersAfter(head, c, index, layer + 1)
            == LayersAfter(head, c, index, layer) + EncodeStorage(LayerValues(c, index, layer))
  {
    assert LayerStorages(c, index, layer + 1) == LayerStorages(c, index, layer) + [LayerValues(c, index, layer)];
    WriteAllAppend(EncodeStorage, LayerStorages(c, index, layer), LayerValues(c, index, layer));
    Associates(head, WriteAll(EncodeStorage, LayerStorages(c, index, layer)),
               EncodeStorage(LayerValues(c, index, layer)));
  }

  /** The layer counter is a byte. */
  function NextLayer(layer: Byte): (next: Byte)
    ensures layer < 0xff ==> next == layer + 1
  {
    if layer == 0xff then 0 else layer + 1
  }

  /** The counter after a number of steps. */
  function LayerAfter(steps: nat): Byte {
    if steps == 0 then 0 else NextLayer(LayerAfter(steps - 1))
  }

  lemma {:induction false} LayerCounts(steps: nat)
    requires steps <= 0xff
    ensures LayerAfter(steps) == steps
  {
    if steps > 0 {
      LayerCounts(steps - 1);
    }
  }

  /** The loop over the layers of a sub-chunk comes to an end. */
  ghost predicate EncodingEnds(c: Chunk, index: int) {
    exists steps: nat :: LayerAfter(steps) >= SubChunkLayerCount(c, index)
  }

  /** Encoding a sub-chunk ends exactly when none of its positions has a block on the last layer. */
  lemma EncodingEndsIff(c: Chunk, index: int)
    requires Tidy(c) && 0 <= index < |c.subs|
    ensures EncodingEnds(c, index) <==> LayerIsAir(c, index, 0xff)
    ensures EncodingEnds(c, index) <==> SubChunkLayerCount(c, index) <= 0xff
  {
    var count := SubChunkLayerCount(c, index);
    LayerCountIs(c, index, 0xff);
    if count <= 0xff {
      LayerCounts(count);
      assert LayerAfter(count) >= count;
    }
  }

  /** One block on the last layer of a new chunk is enough for the encoding not to end. */
  lemma EncodingMayNotEnd(d: Dimension, air: UInt32, x: Byte, y: Int16, z: Byte, id: UInt32)
    requires InRange(WithDefaults(d), x, y, z) && id != air
    ensures var c := Run(NewChunk(d, air), [SetBlock(x, y, z, 0xff, id)]);
            var index := SubIndex(c.dimension, y);
            && Tidy(c) && 0 <= index < |c.subs|
            && SubChunkLayerCount(c, index) == 0x100 && !EncodingEnds(c, index)
  {
    var ops := [SetBlock(x, y, z, 0xff, id)];
    var c := Run(NewChunk(d, air), ops);
    assert ops[..0] == [];
    RunsAreTidy(d, air, ops);
    SubIndexInRange(c.dimension, y);
    var index := SubIndex(c.dimension, y);
    assert RuntimeID(c, x, y, z, 0xff) == id by {
      SetThenGet(NewChunk(d, air), x, y, z, 0xff, id, x, y, z, 0xff);
    }
    assert !LayerIsAir(c, index, 0xff);
    EncodingEndsIff(c, index);
  }

  method EncodeLayers(head: seq<Byte>, chunk: ChunkStore.ChunkStore, index: int, storageCount: nat, ghost c: Chunk)
    returns (out: seq<Byte>)
    requires chunk.Valid() && c == chunk.Model() && 0 <= index < |c.subs| && storageCount <= 0xff
    ensures out == LayersAfter(head, c, index, storageCount)
  {
    NoLayers(head, c, index);
    out := head;
    var layer := 0;
    while layer < storageCount
      invariant 0 <= layer <= storageCount
      invariant out == LayersAfter(head, c, index, layer)
    {
      OneMoreLayer(head, c, index, layer);
      out := EncodeBlockStorage(out, chunk, index, layer);
      layer := NextLayer(layer);
    }
  }

  method EncodeSubChunk(chunk: ChunkStore.ChunkStore, index: int) returns (out: seq<Byte>)
    requires chunk.Valid() && 0 <= index < |chunk.subChunks| && EncodingEnds(chunk.Model(), index)
    ensures out == SubChunkBytes(chunk.Model(), index)
  {
    EncodingEndsIff(chunk.Model(), index);
    var storageCount := chunk.LayerCount(index);
    out := [SUB_CHUNK_VERSION, storageCount % 0x100, (index + MinSubY(chunk.dimension)) % 0x100];
    out := EncodeLayers(out, chunk, index, storageCount, chunk.Model());
  }

  // ---------- biomes ----------

  function BiomeStorages(c: Chunk, count: nat): (r: seq<seq<UInt32>>)
    requires Shaped(c) && count <= |c.subs|
    ensures |r| == count && FullStorages(r)
  {
    seq(count, index requires 0 <= index < count => BiomeValues(c, index))
  }

  /** Decoding the biome payload gives the chunk's own biome at every position. */
  lemma BiomesRoundTrip(c: Chunk, tail: seq<Byte>, index: int, x: Byte, y: Byte, z: Byte)
    requires Shaped(c) && 0 <= index < |c.subs| && x <= 15 && y <= 15 && z <= 15
    ensures var payload := WriteAll(EncodeStorage, BiomeStorages(c, |c.subs|));
            var decoded := ReadAll(DecodeFullStorage, payload + tail, |c.subs|);
            && decoded.Got? && decoded.rest == tail && |decoded.value[index]| == 0x1000
            && decoded.value[index][x * 0x100 + z * 0x10 + y] == BiomeID(c, x, SubY(c.dimension, index) + y, z)
  {
    BiomeValueAt(c, index, x, y, z);
    StoragesRoundTrip(BiomeStorages(c, |c.subs|), tail);
  }

  method CollectBiomes(chunk: ChunkStore.ChunkStore, index: int) returns (values: seq<UInt32>)
    requires chunk.Valid() && 0 <= index < |chunk.subChunks|
    ensures values == BiomeValues(chunk.Model(), index)
  {
    var baseY := SubY(chunk.dimension, index);
    values := [];
    for i := 0 to STORAGE_SIZE
      invariant |values| == i && forall k :: 0 <= k < i ==> values[k] == BiomeValues(chunk.Model(), index)[k]
    {
      var id := chunk.BiomeAt(XOf(i), baseY + YOf(i), ZOf(i));
      values := values + [id];
    }
  }

  lemma OneMoreStorage(c: Chunk, index: nat)
    requires Shaped(c) && index < |c.subs|
    ensures WriteAll(EncodeStorage, BiomeStorages(c, index + 1))
         == WriteAll(EncodeStorage, BiomeStorages(c, index)) + EncodeStorage(BiomeValues(c, index))
  {
    assert BiomeStorages(c, index + 1) == BiomeStorages(c, index) + [BiomeValues(c, index)];
    WriteAllAppend(EncodeStorage, BiomeStorages(c, index), BiomeValues(c, index));
  }

  method EncodeBiomes(chunk: ChunkStore.ChunkStore) returns (out: seq<Byte>)
    requires chunk.Valid()
    ensures out == WriteAll(EncodeStorage, BiomeStorages(chunk.Model(), |chunk.subChunks|))
  {
    ghost var c := chunk.Model();
    out := [];
    for index := 0 to |chunk.subChunks|
      invariant out == WriteAll(EncodeStorage, BiomeStorages(c, index))
    {
      var values := CollectBiomes(chunk, index);
      OneMoreStorage(c, index);
      out := EncodePalettedStorage(out, values);
    }
  }
}
