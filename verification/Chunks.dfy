/**
 A chunk column as the source stores it: per sub-chunk a sparse map of layers, each a sparse map
 of block offsets to runtime IDs, plus sparse biome overrides. Air is never stored, and neither
 is the default biome.
 */
module Chunks {
  import opened Numbers
  import opened Bits

  // ---------- dimensions and coordinates ----------

  datatype Dimension = Dimension(minY: Int16, maxY: Int16)

  const OVERWORLD := Dimension(-64, 319)

  function WithDefaults(d: Dimension): (r: Dimension)
    ensures r.minY < r.maxY
  {
    if d.maxY <= d.minY then OVERWORLD else d
  }

  /** Division by 16 that rounds down, written with shifts of non-negative numbers. */
  function FloorDiv16(value: int): (r: int)
    ensures r == value / 16
  {
    if value >= 0 then value / 16 else -((-value + 15) / 16)
  }

  function MinSubY(d: Dimension): int {
    FloorDiv16(d.minY)
  }

  function SubChunkCount(d: Dimension): (n: int)
    ensures d.minY < d.maxY ==> n >= 1
  {
    FloorDiv16(d.maxY) - FloorDiv16(d.minY) + 1
  }

  function SubIndex(d: Dimension, y: Int16): int {
    FloorDiv16(y) - MinSubY(d)
  }

  /** The lowest height of a sub-chunk, for an index of the dimension. */
  function SubY(d: Dimension, index: int): (y: Int16)
    requires d.minY < d.maxY && 0 <= index < SubChunkCount(d)
    ensures y % 16 == 0 && y <= 0x7ff0
  {
    (MinSubY(d) + index) * 16
  }

  /** The offset of a block in its sub-chunk: three four-bit fields side by side. */
  function BlockOffset(x: Byte, y: Int16, z: Byte): (r: nat)
    ensures r < 0x1000
  {
    0x100 * (x % 16) + 0x10 * (z % 16) + y % 16
  }

  /** That offset is what shifting the fields into place and or-ing them gives. */
  lemma BlockOffsetIsOr(x: Byte, y: Int16, z: Byte)
    ensures BlockOffset(x, y, z) == Or(Or((x % 16) * 0x100, (z % 16) * 0x10), y % 16)
  {
    OrOfFields(x % 16, z % 16, y % 16);
  }

  lemma Pow2Small()
    ensures Pow2(4) == 16 && Pow2(8) == 0x100
  {
  }

  lemma OrOfFields(a: nat, b: nat, c: nat)
    requires b < 16 && c < 16
    ensures Or(Or(a * 0x100, b * 0x10), c) == 0x100 * a + 0x10 * b + c
  {
    Pow2Small();
    var high := b + 16 * a;
    assert Or(a * 0x100, b * 0x10) == high * 16 by {
      OrCommutes(a * 0x100, b * 0x10);
      OrAbove(b * 0x10, a, 8);
    }
    OrCommutes(high * 16, c);
    OrAbove(c, high, 4);
  }

  // ---------- the chunk ----------

  type Blocks = map<nat, UInt32>
  type Layers = map<Byte, Blocks>

  datatype Chunk = Chunk(dimension: Dimension, subs: seq<Layers>, biomes: map<nat, UInt32>, defaultBiome: UInt32,
                         air: UInt32)

  ghost predicate Shaped(c: Chunk) {
    c.dimension.minY < c.dimension.maxY && |c.subs| == SubChunkCount(c.dimension)
  }

  function NewChunk(d: Dimension, air: UInt32): (c: Chunk)
    ensures Shaped(c)
  {
    var dimension := WithDefaults(d);
    Chunk(dimension, seq(SubChunkCount(dimension), _ => map[]), map[], 0, air)
  }

  predicate InRange(d: Dimension, x: Byte, y: Int16, z: Byte) {
    x <= 15 && z <= 15 && d.minY <= y <= d.maxY
  }

  lemma SubIndexInRange(d: Dimension, y: Int16)
    requires d.minY < d.maxY && d.minY <= y <= d.maxY
    ensures 0 <= SubIndex(d, y) < SubChunkCount(d)
    ensures y == SubY(d, SubIndex(d, y)) + y % 16
  {
  }

  /** The sub-chunks reach from the bottom of the dimension to its top; an empty range means the overworld. */
  lemma SubChunksCover(d: Dimension)
    ensures WithDefaults(d) == if d.minY < d.maxY then d else Dimension(-64, 319)
    ensures d.minY < d.maxY ==> SubIndex(d, d.minY) == 0 && SubIndex(d, d.maxY) == SubChunkCount(d) - 1
    ensures d.minY < d.maxY ==> d.minY - 16 < SubY(d, 0) <= d.minY
  {
  }

  /** Two positions that share sub-chunk and offset are the same position, below zero too. */
  lemma PositionsAreDistinct(d: Dimension, x: Byte, y: Int16, z: Byte, x': Byte, y': Int16, z': Byte)
    requires d.minY < d.maxY && InRange(d, x, y, z) && InRange(d, x', y', z')
    requires SubIndex(d, y) == SubIndex(d, y') && BlockOffset(x, y, z) == BlockOffset(x', y', z')
    ensures x == x' && y == y' && z == z'
  {
    FieldsAreUnique(x % 16, z % 16, y % 16, x' % 16, z' % 16, y' % 16);
    SameFields(x, x');
    SameFields(z, z');
    SameHeight(y, y');
  }

  lemma SameFields(a: Byte, b: Byte)
    requires a <= 15 && b <= 15 && a % 16 == b % 16
    ensures a == b
  {
  }

  lemma SameHeight(y: int, y': int)
    requires y / 16 == y' / 16 && y % 16 == y' % 16
    ensures y == y'
  {
  }

  lemma FieldsAreUnique(a: nat, b: nat, c: nat, a': nat, b': nat, c': nat)
    requires b < 16 && c < 16 && b' < 16 && c' < 16
    requires 0x100 * a + 0x10 * b + c == 0x100 * a' + 0x10 * b' + c'
    ensures a == a' && b == b' && c == c'
  {
  }

  function LayerBlocks(layers: Layers, layer: Byte): Blocks {
    if layer in layers then layers[layer] else map[]
  }

  function RuntimeID(c: Chunk, x: Byte, y: Int16, z: Byte, layer: Byte): UInt32
    requires Shaped(c)
  {
    if !InRange(c.dimension, x, y, z) then c.air
    else
      SubIndexInRange(c.dimension, y);
      var blocks := LayerBlocks(c.subs[SubIndex(c.dimension, y)], layer);
      if BlockOffset(x, y, z) in blocks then blocks[BlockOffset(x, y, z)] else c.air
  }

  function WithBlock(layers: Layers, layer: Byte, offset: nat, id: UInt32): Layers {
    layers[layer := LayerBlocks(layers, layer)[offset := id]]
  }

  /** Removes a block, and the layer with its last block. */
  function WithoutBlock(layers: Layers, layer: Byte, offset: nat): Layers {
    var blocks := LayerBlocks(layers, layer);
    if |blocks| == 0 then layers
    else if |blocks - {offset}| == 0 then layers - {layer}
    else layers[layer := blocks - {offset}]
  }

  function SetRuntimeID(c: Chunk, x: Byte, y: Int16, z: Byte, layer: Byte, id: UInt32): (r: Chunk)
    requires Shaped(c)
    ensures Shaped(r) && r.dimension == c.dimension && r.air == c.air
    ensures r.biomes == c.biomes && r.defaultBiome == c.defaultBiome
  {
    if !InRange(c.dimension, x, y, z) then c
    else
      SubIndexInRange(c.dimension, y);
      var index, offset := SubIndex(c.dimension, y), BlockOffset(x, y, z);
      var layers := c.subs[index];
      c.(subs := c.subs[index := if id == c.air then WithoutBlock(layers, layer, offset)
                                 else WithBlock(layers, layer, offset, id)])
  }

  // ---------- biomes ----------

  function BiomeOffset(d: Dimension, x: Byte, y: Int16, z: Byte): nat
    requires d.minY < d.maxY && d.minY <= y <= d.maxY
  {
    SubIndexInRange(d, y);
    0x1000 * SubIndex(d, y) + BlockOffset(x, y, z)
  }

  lemma BiomeOffsetIsOr(d: Dimension, x: Byte, y: Int16, z: Byte)
    requires d.minY < d.maxY && d.minY <= y <= d.maxY
    ensures SubIndex(d, y) >= 0 && BiomeOffset(d, x, y, z) == Or(SubIndex(d, y) * 0x1000, BlockOffset(x, y, z))
  {
    SubIndexInRange(d, y);
    Pow2Small();
    Pow2Sum(4, 8);
    OrCommutes(SubIndex(d, y) * 0x1000, BlockOffset(x, y, z));
    OrAbove(BlockOffset(x, y, z), SubIndex(d, y), 12);
  }

  lemma BiomePositionsAreDistinct(d: Dimension, x: Byte, y: Int16, z: Byte, x': Byte, y': Int16, z': Byte)
    requires d.minY < d.maxY && InRange(d, x, y, z) && InRange(d, x', y', z')
    requires BiomeOffset(d, x, y, z) == BiomeOffset(d, x', y', z')
    ensures x == x' && y == y' && z == z'
  {
    assert SubIndex(d, y) == SubIndex(d, y') && BlockOffset(x, y, z) == BlockOffset(x', y', z');
    PositionsAreDistinct(d, x, y, z, x', y', z');
  }

  function BiomeID(c: Chunk, x: Byte, y: Int16, z: Byte): UInt32
    requires Shaped(c)
  {
    if !InRange(c.dimension, x, y, z) then c.defaultBiome
    else
      var key := BiomeOffset(c.dimension, x, y, z);
      if key in c.biomes then c.biomes[key] else c.defaultBiome
  }

  function SetBiomeID(c: Chunk, x: Byte, y: Int16, z: Byte, biome: UInt32): Chunk
    requires Shaped(c)
  {
    if !InRange(c.dimension, x, y, z) then c
    else
      var key := BiomeOffset(c.dimension, x, y, z);
      if biome == c.defaultBiome then c.(biomes := c.biomes - {key})
      else c.(biomes := c.biomes[key := biome])
  }

  function FillBiomeID(c: Chunk, biome: UInt32): Chunk {
    c.(defaultBiome := biome, biomes := map[])
  }

  // ---------- runs ----------

  datatype Op =
    | SetBlock(x: Byte, y: Int16, z: Byte, layer: Byte, id: UInt32)
    | SetBiome(x: Byte, y: Int16, z: Byte, biome: UInt32)
    | FillBiome(biome: UInt32)

  function Apply(c: Chunk, op: Op): (r: Chunk)
    requires Shaped(c)
    ensures Shaped(r) && r.dimension == c.dimension && r.air == c.air
  {
    match op
    case SetBlock(x, y, z, layer, id) => SetRuntimeID(c, x, y, z, layer, id)
    case SetBiome(x, y, z, biome) => SetBiomeID(c, x, y, z, biome)
    case FillBiome(biome) => FillBiomeID(c, biome)
  }

  function Run(c: Chunk, ops: seq<Op>): (r: Chunk)
    requires Shaped(c)
    ensures Shaped(r) && r.dimension == c.dimension && r.air == c.air
  {
    if ops == [] then c else Apply(Run(c, ops[..|ops| - 1]), ops[|ops| - 1])
  }

  // ---------- the dense map a chunk stands for ----------

  /** The block that the last write to a position left there; air before any write. */
  function LastBlock(d: Dimension, air: UInt32, ops: seq<Op>, x: Byte, y: Int16, z: Byte, layer: Byte): UInt32 {
    if ops == [] then air
    else
      match ops[|ops| - 1]
      case SetBlock(x', y', z', layer', id) =>
        if x <= 15 && z <= 15 && d.minY <= y <= d.maxY && (x, y, z, layer) == (x', y', z', layer') then id
        else LastBlock(d, air, ops[..|ops| - 1], x, y, z, layer)
      case _ => LastBlock(d, air, ops[..|ops| - 1], x, y, z, layer)
  }

  /** The biome that the last write or fill left at a position; 0 before any. */
  function LastBiome(d: Dimension, ops: seq<Op>, x: Byte, y: Int16, z: Byte): UInt32 {
    if ops == [] then 0
    else
      match ops[|ops| - 1]
      case SetBiome(x', y', z', biome) =>
        if x <= 15 && z <= 15 && d.minY <= y <= d.maxY && (x, y, z) == (x', y', z') then biome
        else LastBiome(d, ops[..|ops| - 1], x, y, z)
      case FillBiome(biome) => biome
      case _ => LastBiome(d, ops[..|ops| - 1], x, y, z)
  }

  lemma LayersAfterSet(layers: Layers, layer: Byte, offset: nat, id: UInt32, layer': Byte, offset': nat)
    ensures var blocks := LayerBlocks(WithBlock(layers, layer, offset, id), layer');
            if (layer, offset) == (layer', offset') then offset' in blocks && blocks[offset'] == id
            else (offset' in blocks <==> offset' in LayerBlocks(layers, layer'))
                 && (offset' in blocks ==> blocks[offset'] == LayerBlocks(layers, layer')[offset'])
  {
  }

  lemma LayersAfterRemove(layers: Layers, layer: Byte, offset: nat, layer': Byte, offset': nat)
    ensures var blocks := LayerBlocks(WithoutBlock(layers, layer, offset), layer');
            if (layer, offset) == (layer', offset') then offset' !in blocks
            else (offset' in blocks <==> offset' in LayerBlocks(layers, layer'))
                 && (offset' in blocks ==> blocks[offset'] == LayerBlocks(layers, layer')[offset'])
  {
  }

  /** A write changes its own position and no other. */
  lemma SetThenGet(c: Chunk, x: Byte, y: Int16, z: Byte, layer: Byte, id: UInt32, x': Byte, y': Int16, z': Byte,
                   layer': Byte)
    requires Shaped(c)
    ensures RuntimeID(SetRuntimeID(c, x, y, z, layer, id), x', y', z', layer')
            == if InRange(c.dimension, x', y', z') && (x', y', z', layer') == (x, y, z, layer) then id
               else RuntimeID(c, x', y', z', layer')
  {
    if InRange(c.dimension, x, y, z) && InRange(c.dimension, x', y', z') {
      SubIndexInRange(c.dimension, y);
      SubIndexInRange(c.dimension, y');
      var layers := c.subs[SubIndex(c.dimension, y)];
      var offset, offset' := BlockOffset(x, y, z), BlockOffset(x', y', z');
      if SubIndex(c.dimension, y) == SubIndex(c.dimension, y') && offset == offset' {
        PositionsAreDistinct(c.dimension, x, y, z, x', y', z');
      }
      LayersAfterSet(layers, layer, offset, id, layer', offset');
      LayersAfterRemove(layers, layer, offset, layer', offset');
    }
  }

  lemma SetBiomeThenGet(c: Chunk, x: Byte, y: Int16, z: Byte, biome: UInt32, x': Byte, y': Int16, z': Byte)
    requires Shaped(c)
    ensures BiomeID(SetBiomeID(c, x, y, z, biome), x', y', z')
            == if InRange(c.dimension, x', y', z') && (x', y', z') == (x, y, z) then biome else BiomeID(c, x', y', z')
  {
    if InRange(c.dimension, x, y, z) && InRange(c.dimension, x', y', z')
       && BiomeOffset(c.dimension, x, y, z) == BiomeOffset(c.dimension, x', y', z') {
      BiomePositionsAreDistinct(c.dimension, x, y, z, x', y', z');
    }
  }

  /** In every run, reading a block gives what the last write to its position left there. */
  lemma {:induction false} BlocksAreDense(d: Dimension, air: UInt32, ops: seq<Op>, x: Byte, y: Int16, z: Byte,
                                          layer: Byte)
    ensures RuntimeID(Run(NewChunk(d, air), ops), x, y, z, layer)
            == LastBlock(WithDefaults(d), air, ops, x, y, z, layer)
  {
    if ops != [] {
      var before, last := Run(NewChunk(d, air), ops[..|ops| - 1]), ops[|ops| - 1];
      BlocksAreDense(d, air, ops[..|ops| - 1], x, y, z, layer);
      if last.SetBlock? {
        SetThenGet(before, last.x, last.y, last.z, last.layer, last.id, x, y, z, layer);
      }
    }
  }

  /** In every run, reading a biome gives what the last write or fill left there. */
  lemma {:induction false} BiomesAreDense(d: Dimension, air: UInt32, ops: seq<Op>, x: Byte, y: Int16, z: Byte)
    ensures BiomeID(Run(NewChunk(d, air), ops), x, y, z) == LastBiome(WithDefaults(d), ops, x, y, z)
  {
    if ops != [] {
      var before, last := Run(NewChunk(d, air), ops[..|ops| - 1]), ops[|ops| - 1];
      BiomesAreDense(d, air, ops[..|ops| - 1], x, y, z);
      if last.SetBiome? {
        SetBiomeThenGet(before, last.x, last.y, last.z, last.biome, x, y, z);
      }
    }
  }

  // ---------- what is stored ----------

  /** A stored block is not air, and its offset is that of a position in the dimension. */
  ghost predicate StoredWell(d: Dimension, air: UInt32, index: int, offset: nat, id: UInt32)
    requires d.minY < d.maxY && 0 <= index < SubChunkCount(d)
  {
    id != air && offset < 0x1000 && d.minY <= SubY(d, index) + offset % 16 <= d.maxY
  }

  ghost predicate TidyLayers(d: Dimension, air: UInt32, index: int, layers: Layers)
    requires d.minY < d.maxY && 0 <= index < SubChunkCount(d)
  {
    forall layer :: layer in layers ==>
      |layers[layer]| != 0
      && forall offset :: offset in layers[layer] ==> StoredWell(d, air, index, offset, layers[layer][offset])
  }

  ghost predicate Tidy(c: Chunk) {
    && Shaped(c)
    && (forall index :: 0 <= index < |c.subs| ==> TidyLayers(c.dimension, c.air, index, c.subs[index]))
    && (forall key :: key in c.biomes ==> c.biomes[key] != c.defaultBiome)
  }

  lemma AddKeepsTidy(d: Dimension, air: UInt32, index: int, layers: Layers, layer: Byte, offset: nat, id: UInt32)
    requires d.minY < d.maxY && 0 <= index < SubChunkCount(d)
    requires TidyLayers(d, air, index, layers) && StoredWell(d, air, index, offset, id)
    ensures TidyLayers(d, air, index, WithBlock(layers, layer, offset, id))
  {
  }

  lemma RemoveKeepsTidy(d: Dimension, air: UInt32, index: int, layers: Layers, layer: Byte, offset: nat)
    requires d.minY < d.maxY && 0 <= index < SubChunkCount(d)
    requires TidyLayers(d, air, index, layers)
    ensures TidyLayers(d, air, index, WithoutBlock(layers, layer, offset))
  {
  }

  lemma OffsetHeight(x: Byte, y: Int16, z: Byte)
    ensures BlockOffset(x, y, z) % 16 == y % 16
  {
  }

  lemma SetKeepsTidy(c: Chunk, x: Byte, y: Int16, z: Byte, layer: Byte, id: UInt32)
    requires Tidy(c)
    ensures Tidy(SetRuntimeID(c, x, y, z, layer, id))
  {
    if InRange(c.dimension, x, y, z) {
      SubIndexInRange(c.dimension, y);
      var index, offset := SubIndex(c.dimension, y), BlockOffset(x, y, z);
      if id == c.air {
        RemoveKeepsTidy(c.dimension, c.air, index, c.subs[index], layer, offset);
      } else {
        OffsetHeight(x, y, z);
        AddKeepsTidy(c.dimension, c.air, index, c.subs[index], layer, offset, id);
      }
    }
  }

  /** In every run no air, no empty layer and no default biome is stored. */
  lemma {:induction false} RunsAreTidy(d: Dimension, air: UInt32, ops: seq<Op>)
    ensures Tidy(Run(NewChunk(d, air), ops))
  {
    if ops != [] {
      var before, last := Run(NewChunk(d, air), ops[..|ops| - 1]), ops[|ops| - 1];
      RunsAreTidy(d, air, ops[..|ops| - 1]);
      match last
      case SetBlock(x, y, z, layer, id) => SetKeepsTidy(before, x, y, z, layer, id);
      case SetBiome(_, _, _, _) =>
      case FillBiome(_) =>
    }
  }
}
