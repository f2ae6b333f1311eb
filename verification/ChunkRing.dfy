/**
 The order in which chunks around the spawn are sent: ring by ring outwards, each position of
 the square exactly once, for every centre. The list is not produced for every radius: its
 capacity is computed in 32 bits and may come out negative, and the ring counter cannot get past
 the largest radius.
 */
module ChunkRing {
  import opened Numbers

  datatype ChunkPos = ChunkPos(x: Int32, z: Int32)

  // ---------- distances ----------

  function Abs(v: int): int {
    if v < 0 then -v else v
  }

  function Max(a: int, b: int): int {
    if a < b then b else a
  }

  /** How far one coordinate is from another; coordinates wrap around. */
  function Offset(center: Int32, v: Int32): Int32 {
    Wrap(v - center)
  }

  /** Chebyshev distance. */
  function Distance(center: ChunkPos, p: ChunkPos): int {
    Max(Abs(Offset(center.x, p.x)), Abs(Offset(center.z, p.z)))
  }

  /** Where nothing wraps, the distance is the usual one. */
  lemma DistanceIsPlain(center: ChunkPos, p: ChunkPos)
    requires Abs(p.x - center.x) <= INT32_MAX && Abs(p.z - center.z) <= INT32_MAX
    ensures Distance(center, p) == Max(Abs(p.x - center.x), Abs(p.z - center.z))
  {
  }

  lemma OffsetOfSum(center: Int32, x: Int32)
    ensures Offset(center, Wrap(center + x)) == x
  {
  }

  lemma SumOfOffset(center: Int32, v: Int32)
    ensures Wrap(center + Offset(center, v)) == v
  {
  }

  // ---------- the order of the list ----------

  /** `(d, x, z)` comes before `(d', x', z')` in lexicographic order. */
  predicate Lex(d: int, x: int, z: int, d': int, x': int, z': int) {
    d < d' || (d == d' && (x < x' || (x == x' && z < z')))
  }

  /** A position the scan has passed when it stands at ring `d` and offset `(x, z)`. */
  predicate Passed(center: ChunkPos, p: ChunkPos, d: int, x: int, z: int) {
    Lex(Distance(center, p), Offset(center.x, p.x), Offset(center.z, p.z), d, x, z)
  }

  /** The order of the list: by ring, then by offset. */
  predicate Before(center: ChunkPos, p: ChunkPos, q: ChunkPos) {
    Passed(center, p, Distance(center, q), Offset(center.x, q.x), Offset(center.z, q.z))
  }

  predicate Increasing(center: ChunkPos, list: seq<ChunkPos>) {
    forall i, j :: 0 <= i < j < |list| ==> Before(center, list[i], list[j])
  }

  /** The list holds exactly the passed positions of the square, in order. */
  ghost predicate Listed(center: ChunkPos, radius: int, list: seq<ChunkPos>, d: int, x: int, z: int) {
    && Increasing(center, list)
    && forall p :: p in list <==> Distance(center, p) <= radius && Passed(center, p, d, x, z)
  }

  /** What is listed does not change between two points of the scan with nothing in between. */
  lemma SamePoint(center: ChunkPos, radius: int, list: seq<ChunkPos>, d: int, x: int, z: int, d': int, x': int, z': int)
    requires Listed(center, radius, list, d, x, z)
    requires forall p :: Distance(center, p) <= radius ==>
               (Passed(center, p, d, x, z) <==> Passed(center, p, d', x', z'))
    ensures Listed(center, radius, list, d', x', z')
  {
  }

  lemma SameOffsets(center: ChunkPos, p: ChunkPos, q: ChunkPos)
    requires Offset(center.x, p.x) == Offset(center.x, q.x) && Offset(center.z, p.z) == Offset(center.z, q.z)
    ensures p == q
  {
    SumOfOffset(center.x, p.x);
    SumOfOffset(center.x, q.x);
    SumOfOffset(center.z, p.z);
    SumOfOffset(center.z, q.z);
  }

  lemma Append(center: ChunkPos, radius: int, list: seq<ChunkPos>, d: int, x: int, z: int, p: ChunkPos)
    requires Listed(center, radius, list, d, x, z)
    requires Offset(center.x, p.x) == x && Offset(center.z, p.z) == z && Distance(center, p) == d <= radius
    ensures Listed(center, radius, list + [p], d, x, z + 1)
  {
    forall q
      ensures q in list + [p] <==> Distance(center, q) <= radius && Passed(center, q, d, x, z + 1)
    {
      if Distance(center, q) == d && Offset(center.x, q.x) == x && Offset(center.z, q.z) == z {
        SameOffsets(center, p, q);
      }
    }
  }

  /** A smaller distance than the ring's is passed already. */
  lemma Skip(center: ChunkPos, radius: int, list: seq<ChunkPos>, d: int, x: int, z: int)
    requires Listed(center, radius, list, d, x, z) && Max(Abs(x), Abs(z)) != d
    ensures Listed(center, radius, list, d, x, z + 1)
  {
  }

  // ---------- when there is a list ----------

  /** `(radius*2+1)*(radius*2+1)` in 32 bits. */
  function Capacity(radius: Int32): Int32 {
    var side := Wrap(Wrap(radius * 2) + 1);
    Wrap(side * side)
  }

  /** The ring counter after so many increments. */
  function CounterAfter(steps: nat): Int32 {
    if steps == 0 then 0 else Increment(CounterAfter(steps - 1))
  }

  lemma {:induction false} CounterAfterIs(steps: nat)
    requires steps <= INT32_MAX
    ensures CounterAfter(steps) == steps
  {
    if steps > 0 {
      CounterAfterIs(steps - 1);
    }
  }

  /** The loop over rings comes to an end. */
  ghost predicate LoopEnds(radius: Int32) {
    exists steps: nat :: CounterAfter(steps) > radius
  }

  /** It does for every radius but the largest. */
  lemma LoopEndsIff(radius: Int32)
    ensures LoopEnds(radius) <==> radius < INT32_MAX
  {
    if radius < INT32_MAX {
      var steps := if radius < 0 then 0 else radius + 1;
      CounterAfterIs(steps);
      assert CounterAfter(steps) > radius;
    }
  }

  /** Up to 23169 the capacity is the number of positions; 23170 is the first radius to make it negative. */
  lemma CapacityIsCountBelow(radius: Int32)
    requires 0 <= radius <= 23170
    ensures Capacity(radius) >= 0 <==> radius < 23170
    ensures radius < 23170 ==> Capacity(radius) == (2 * radius + 1) * (2 * radius + 1)
    ensures radius == 23170 ==> Capacity(radius) == -2147479015
  {
    var side: int := 2 * radius + 1;
    WrapStays(2 * radius);
    WrapStays(side);
    if radius < 23170 {
      MulUpTo(side, 46339);
      WrapStays(side * side);
    } else {
      assert side == 46341;
    }
  }

  lemma WrapStays(x: int)
    requires INT32_MIN <= x <= INT32_MAX
    ensures Wrap(x) == x
  {
  }

  lemma MulUpTo(a: int, b: int)
    requires 0 <= a <= b
    ensures 0 <= a * a <= b * b
  {
  }

  /** `make` panics on a negative capacity; a loop that does not end produces nothing either. */
  datatype Outcome = Produced(positions: seq<ChunkPos>) | Panicked | Endless

  /**
   Every position of the square of the given radius, nothing else, none twice, and rings in
   order of distance; there is such a list exactly when the wrapped capacity is not negative and
   the radius is not the largest.
   */
  method ChunkPositions(center: ChunkPos, radius: Int32) returns (r: Outcome)
    ensures r.Produced? <==> Capacity(radius) >= 0 && radius < INT32_MAX
    ensures r.Panicked? <==> Capacity(radius) < 0
    ensures r.Endless? <==> Capacity(radius) >= 0 && !LoopEnds(radius)
    ensures r.Produced? ==> forall p :: p in r.positions <==> Distance(center, p) <= radius
    ensures r.Produced? ==> forall i, j :: 0 <= i < j < |r.positions| ==> r.positions[i] != r.positions[j]
    ensures r.Produced? ==> forall i, j :: 0 <= i < j < |r.positions| ==>
                              Distance(center, r.positions[i]) <= Distance(center, r.positions[j])
  {
    LoopEndsIff(radius);
    if Capacity(radius) < 0 {
      return Panicked;
    }
    if radius == INT32_MAX {
      return Endless;
    }
    var positions := Rings(center, radius);
    r := Produced(positions);
  }

  method Rings(center: ChunkPos, radius: Int32) returns (positions: seq<ChunkPos>)
    requires radius < INT32_MAX
    ensures Increasing(center, positions)
    ensures forall p :: p in positions <==> Distance(center, p) <= radius
  {
    positions := [];
    var distance: Int32 := 0;
    while distance <= radius
      invariant 0 <= distance && (distance <= radius + 1 || distance == 0)
      invariant Listed(center, radius, positions, distance, -distance, -distance)
    {
      var x: Int32 := -distance;
      while x <= distance
        invariant -distance <= x <= distance + 1
        invariant Listed(center, radius, positions, distance, x, -distance)
      {
        positions := Column(center, radius, positions, distance, x);
        SamePoint(center, radius, positions, distance, x, distance + 1, distance, x + 1, -distance);
        x := Increment(x);
      }
      SamePoint(center, radius, positions, distance, distance + 1, -distance,
                distance + 1, -distance - 1, -distance - 1);
      distance := Increment(distance);
    }
  }

  /** The positions of a ring with one `x`. */
  method Column(center: ChunkPos, radius: Int32, listed: seq<ChunkPos>, distance: Int32, x: Int32)
    returns (positions: seq<ChunkPos>)
    requires 0 <= distance <= radius < INT32_MAX && -distance <= x <= distance
    requires Listed(center, radius, listed, distance, x, -distance)
    ensures Listed(center, radius, positions, distance, x, distance + 1)
  {
    positions := listed;
    var z: Int32 := -distance;
    while z <= distance
      invariant -distance <= z <= distance + 1
      invariant Listed(center, radius, positions, distance, x, z)
    {
      if Max(Abs(x), Abs(z)) != distance {
        Skip(center, radius, positions, distance, x, z);
      } else {
        var p := ChunkPos(Wrap(center.x + x), Wrap(center.z + z));
        OffsetOfSum(center.x, x);
        OffsetOfSum(center.z, z);
        Append(center, radius, positions, distance, x, z, p);
        positions := positions + [p];
      }
      z := Increment(z);
    }
  }
}
