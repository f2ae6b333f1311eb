/**
 The resource-pack download queue: a client selects packs and then asks for their chunks one by
 one; the queue must hand out exactly the bytes of each selected pack, in order.
 */
module DownloadQueue {
  import opened Numbers
  import opened Wrappers
  import opened Bits

  const DEFAULT_CHUNK_SIZE := 0x2_0000

  /** The kind of a pack is a constant of the protocol library. */
  datatype Pack = Pack(uuid: string, version: string, data: seq<Byte>, premium: bool, packType: Byte)

  /** A digest stands for itself: of its bytes no more is known than which data they come from. */
  datatype Digest = Sha256(data: seq<Byte>)

  datatype Packet =
    | DataInfo(uuid: string, chunkSize: nat, chunkCount: nat, size: nat, hash: Digest, premium: bool, packType: Byte)
    | ChunkData(uuid: string, chunkIndex: nat, dataOffset: nat, data: seq<Byte>)

  // ---------- one pack ----------

  /** The number of chunks with data in them. */
  function CeilDiv(size: nat, chunkSize: nat): nat
    requires chunkSize > 0
  {
    (size + chunkSize - 1) / chunkSize
  }

  function InfoOf(pack: Pack, chunkSize: nat): Packet
    requires chunkSize > 0
  {
    DataInfo(pack.uuid, chunkSize, CeilDiv(|pack.data|, chunkSize) % 0x1_0000_0000, |pack.data|,
             Sha256(pack.data), pack.premium, pack.packType)
  }

  lemma NextOffset(index: nat, chunkSize: nat)
    ensures (index + 1) * chunkSize == index * chunkSize + chunkSize
  {
  }

  predicate IsLast(pack: Pack, chunkSize: nat, index: nat) {
    index * chunkSize + chunkSize >= |pack.data|
  }

  function ChunkOf(pack: Pack, chunkSize: nat, index: nat): Packet
    requires index * chunkSize <= |pack.data|
  {
    var offset := index * chunkSize;
    var end := if offset + chunkSize > |pack.data| then |pack.data| else offset + chunkSize;
    ChunkData(pack.uuid, index, offset, pack.data[offset..end])
  }

  /** The chunks of a pack from an index on. */
  function ChunksFrom(pack: Pack, chunkSize: nat, index: nat): seq<Packet>
    requires chunkSize > 0 && index * chunkSize <= |pack.data|
    decreases |pack.data| - index * chunkSize
  {
    if IsLast(pack, chunkSize, index) then [ChunkOf(pack, chunkSize, index)]
    else
      NextOffset(index, chunkSize);
      [ChunkOf(pack, chunkSize, index)] + ChunksFrom(pack, chunkSize, index + 1)
  }

  /** The bytes carried by a list of packets. */
  function Payload(packets: seq<Packet>): seq<Byte> {
    if packets == [] then []
    else (if packets[0].ChunkData? then packets[0].data else []) + Payload(packets[1..])
  }

  /** The chunks of a pack are exactly its bytes. */
  lemma {:induction false} ChunksCarryData(pack: Pack, chunkSize: nat, index: nat)
    requires chunkSize > 0 && index * chunkSize <= |pack.data|
    ensures Payload(ChunksFrom(pack, chunkSize, index)) == pack.data[index * chunkSize..]
    decreases |pack.data| - index * chunkSize
  {
    var chunks := ChunksFrom(pack, chunkSize, index);
    var offset := index * chunkSize;
    if IsLast(pack, chunkSize, index) {
      assert chunks[1..] == [];
    } else {
      NextOffset(index, chunkSize);
      ChunksCarryData(pack, chunkSize, index + 1);
      assert chunks[1..] == ChunksFrom(pack, chunkSize, index + 1);
      assert chunks[0].data == pack.data[offset..offset + chunkSize];
      SplitAt(pack.data, offset, offset + chunkSize);
    }
  }

  /** The bytes sent before the `k`-th packet. */
  function SentBefore(packets: seq<Packet>, k: nat): nat
    requires k <= |packets|
  {
    |Payload(packets[..k])|
  }

  /** What the packets of a pack say of themselves. */
  ghost predicate DescribesItself(pack: Pack, packets: seq<Packet>, k: nat)
    requires k < |packets|
  {
    && packets[k].ChunkData? && packets[k].uuid == pack.uuid && packets[k].chunkIndex == k
    && packets[k].dataOffset == SentBefore(packets, k)
    && packets[k].dataOffset + |packets[k].data| <= |pack.data|
    && packets[k].data == pack.data[packets[k].dataOffset..packets[k].dataOffset + |packets[k].data|]
  }

  lemma {:induction false} PayloadConcat(a: seq<Packet>, b: seq<Packet>)
    ensures Payload(a + b) == Payload(a) + Payload(b)
    decreases |a|
  {
    if a == [] {
      assert a + b == b;
    } else {
      assert (a + b)[1..] == a[1..] + b;
      PayloadConcat(a[1..], b);
    }
  }

  lemma PayloadAppend(packets: seq<Packet>, last: Packet)
    requires last.ChunkData?
    ensures Payload(packets + [last]) == Payload(packets) + last.data
  {
    PayloadConcat(packets, [last]);
    assert [last][1..] == [] && Payload([last]) == last.data + Payload([]);
  }

  lemma PayloadFirst(first: Packet, packets: seq<Packet>)
    requires first.ChunkData?
    ensures Payload([first] + packets) == first.data + Payload(packets)
  {
    assert ([first] + packets)[1..] == packets;
  }

  /** The `k`-th of the chunks from an index on. */
  lemma {:induction false} ChunkAt(pack: Pack, chunkSize: nat, index: nat, k: nat)
    requires chunkSize > 0 && index * chunkSize <= |pack.data| && k < |ChunksFrom(pack, chunkSize, index)|
    ensures (index + k) * chunkSize <= |pack.data|
    ensures ChunksFrom(pack, chunkSize, index)[k] == ChunkOf(pack, chunkSize, index + k)
    ensures index * chunkSize <= (index + k) * chunkSize
    ensures Payload(ChunksFrom(pack, chunkSize, index)[..k]) == pack.data[index * chunkSize..(index + k) * chunkSize]
    decreases k
  {
    if k == 0 {
      assert ChunksFrom(pack, chunkSize, index)[..0] == [];
    } else {
      NextOffset(index, chunkSize);
      ChunkAt(pack, chunkSize, index + 1, k - 1);
      ChunkAfter(pack, chunkSize, index, k, index * chunkSize, (index + 1) * chunkSize, (index + k) * chunkSize);
    }
  }

  lemma ChunkAfter(pack: Pack, chunkSize: nat, index: nat, k: nat, i: nat, j: nat, end: nat)
    requires chunkSize > 0 && i == index * chunkSize && j == (index + 1) * chunkSize && j == i + chunkSize
    requires j <= end <= |pack.data| && !IsLast(pack, chunkSize, index)
    requires 0 < k <= |ChunksFrom(pack, chunkSize, index + 1)|
    requires Payload(ChunksFrom(pack, chunkSize, index + 1)[..k - 1]) == pack.data[j..end]
    ensures ChunksFrom(pack, chunkSize, index)[k] == ChunksFrom(pack, chunkSize, index + 1)[k - 1]
    ensures Payload(ChunksFrom(pack, chunkSize, index)[..k]) == pack.data[i..end]
  {
    var first, rest := ChunkOf(pack, chunkSize, index), ChunksFrom(pack, chunkSize, index + 1);
    assert ChunksFrom(pack, chunkSize, index) == [first] + rest;
    assert ([first] + rest)[..k] == [first] + rest[..k - 1];
    PayloadFirst(first, rest[..k - 1]);
    JoinSlices(pack.data, i, j, end);
  }

  lemma JoinSlices(data: seq<Byte>, i: nat, j: nat, k: nat)
    requires i <= j <= k <= |data|
    ensures data[i..j] + data[j..k] == data[i..k]
  {
  }

  /**
   Each chunk of a pack names the pack, its own number, and the number of bytes sent before it, and
   carries the pack's bytes from there on.
   */
  lemma ChunksDescribeThemselves(pack: Pack, chunkSize: nat, k: nat)
    requires chunkSize > 0 && k < |ChunksFrom(pack, chunkSize, 0)|
    ensures DescribesItself(pack, ChunksFrom(pack, chunkSize, 0), k)
  {
    ChunkAt(pack, chunkSize, 0, k);
  }

  /** What a client has after writing each chunk at the offset it names. */
  function WriteAt(buffer: seq<Byte>, offset: nat, data: seq<Byte>): seq<Byte>
    requires offset <= |buffer|
  {
    buffer[..offset] + data + if offset + |data| <= |buffer| then buffer[offset + |data|..] else []
  }

  function Assemble(packets: seq<Packet>): Option<seq<Byte>> {
    if packets == [] then Some([])
    else
      match Assemble(packets[..|packets| - 1])
      case None => None
      case Some(buffer) =>
        var last := packets[|packets| - 1];
        if last.ChunkData? && last.dataOffset <= |buffer|
        then Some(WriteAt(buffer, last.dataOffset, last.data)) else None
  }

  lemma {:induction false} AssembleFirst(pack: Pack, packets: seq<Packet>, k: nat)
    requires k <= |packets| && forall i :: 0 <= i < |packets| ==> DescribesItself(pack, packets, i)
    ensures Assemble(packets[..k]) == Some(Payload(packets[..k]))
    decreases k
  {
    if k > 0 {
      AssembleFirst(pack, packets, k - 1);
      assert packets[..k] == packets[..k - 1] + [packets[k - 1]];
      assert DescribesItself(pack, packets, k - 1);
      AssembleNext(packets[..k - 1], packets[k - 1]);
    }
  }

  lemma AssembleNext(packets: seq<Packet>, last: Packet)
    requires last.ChunkData? && last.dataOffset == |Payload(packets)| && Assemble(packets) == Some(Payload(packets))
    ensures Assemble(packets + [last]) == Some(Payload(packets + [last]))
  {
    var more, buffer := packets + [last], Payload(packets);
    assert more[..|more| - 1] == packets && more[|more| - 1] == last;
    PayloadAppend(packets, last);
    assert WriteAt(buffer, |buffer|, last.data) == buffer + last.data;
  }

  /** A client that writes every chunk where the chunk says has the pack's data in the end. */
  lemma PackIsAssembled(pack: Pack, chunkSize: nat)
    requires chunkSize > 0
    ensures Assemble(ChunksFrom(pack, chunkSize, 0)) == Some(pack.data)
  {
    var packets := ChunksFrom(pack, chunkSize, 0);
    forall k | 0 <= k < |packets|
      ensures DescribesItself(pack, packets, k)
    {
      ChunksDescribeThemselves(pack, chunkSize, k);
    }
    AssembleFirst(pack, packets, |packets|);
    assert packets[..|packets|] == packets;
    ChunksCarryData(pack, chunkSize, 0);
    assert pack.data[0..] == pack.data;
  }

  /** The announcement names the pack, its size, the digest of its data and its kind. */
  lemma InfoDescribes(pack: Pack, chunkSize: nat)
    requires chunkSize > 0
    ensures var info := InfoOf(pack, chunkSize);
            && info.DataInfo? && info.uuid == pack.uuid && info.chunkSize == chunkSize
            && info.size == |pack.data| && info.hash == Sha256(pack.data)
            && info.premium == pack.premium && info.packType == pack.packType
  {
  }

  lemma SplitAt(data: seq<Byte>, i: nat, j: nat)
    requires i <= j <= |data|
    ensures data[i..] == data[i..j] + data[j..]
  {
  }

  /** How many requests a pack takes; an empty pack takes one although it announces no chunks. */
  function RequestsFor(pack: Pack, chunkSize: nat): nat
    requires chunkSize > 0
  {
    if |pack.data| == 0 then 1 else CeilDiv(|pack.data|, chunkSize)
  }

  /** The chunk that reaches the end of the data is the last of as many as the size needs. */
  lemma LastChunk(size: nat, chunkSize: nat, index: nat, offset: nat)
    requires offset == index * chunkSize && offset < size <= offset + chunkSize
    ensures CeilDiv(size, chunkSize) == index + 1
  {
    MulCommutes(index, chunkSize);
    MulDistributes(chunkSize, index, 1);
    DivByFactor(size - 1 - offset, chunkSize, index + 1);
  }

  lemma {:induction false} ChunkCountIs(pack: Pack, chunkSize: nat, index: nat)
    requires chunkSize > 0 && index * chunkSize <= |pack.data| && (index > 0 ==> index * chunkSize < |pack.data|)
    ensures |ChunksFrom(pack, chunkSize, index)| == RequestsFor(pack, chunkSize) - index
    decreases |pack.data| - index * chunkSize
  {
    if !IsLast(pack, chunkSize, index) {
      NextOffset(index, chunkSize);
      ChunkCountIs(pack, chunkSize, index + 1);
    } else if |pack.data| > 0 {
      LastChunk(|pack.data|, chunkSize, index, index * chunkSize);
    }
  }

  lemma CeilDivBound(size: nat, chunkSize: nat, n: nat)
    requires chunkSize > 0 && size <= n * chunkSize
    ensures CeilDiv(size, chunkSize) <= n
  {
    var x := size + chunkSize - 1;
    DivMod(x, chunkSize);
    if x / chunkSize > n {
      MulMonotonic(chunkSize, n + 1, x / chunkSize);
      MulDistributes(chunkSize, n, 1);
      MulCommutes(chunkSize, n);
      assert false;
    }
  }

  /**
   The announced number of chunks is the number of chunks that are sent exactly when the pack has
   data and fewer than 2^32 chunks; the field of the packet has 32 bits.
   */
  lemma AnnouncedCountIff(pack: Pack, chunkSize: nat)
    requires chunkSize > 0
    ensures InfoOf(pack, chunkSize).chunkCount == |ChunksFrom(pack, chunkSize, 0)|
            <==> 0 < CeilDiv(|pack.data|, chunkSize) < 0x1_0000_0000
  {
    ChunkCountIs(pack, chunkSize, 0);
    var n := CeilDiv(|pack.data|, chunkSize);
    if |pack.data| == 0 {
      CeilDivBound(0, chunkSize, 0);
    } else if n >= 0x1_0000_0000 {
      assert n % 0x1_0000_0000 < n;
    }
  }

  /** An empty pack announces no chunk and is sent in one, which has no data. */
  lemma EmptyPackIsOneChunk(pack: Pack, chunkSize: nat)
    requires chunkSize > 0 && pack.data == []
    ensures InfoOf(pack, chunkSize).chunkCount == 0
    ensures ChunksFrom(pack, chunkSize, 0) == [ChunkData(pack.uuid, 0, 0, [])]
  {
    CeilDivBound(0, chunkSize, 0);
  }

  /** A pack of exactly 2^32 chunks announces none either. */
  lemma LargestPackAnnouncesNothing(pack: Pack, chunkSize: nat)
    requires chunkSize > 0 && |pack.data| == 0x1_0000_0000 * chunkSize
    ensures InfoOf(pack, chunkSize).chunkCount == 0 && |ChunksFrom(pack, chunkSize, 0)| == 0x1_0000_0000
  {
    ChunkCountIs(pack, chunkSize, 0);
    NextOffset(0xffff_ffff, chunkSize);
    LastChunk(|pack.data|, chunkSize, 0xffff_ffff, 0xffff_ffff * chunkSize);
  }

  // ---------- the queue ----------

  datatype Queue = Queue(packs: seq<Pack>, selected: seq<nat>, current: nat, currentChunk: UInt32, chunkSize: nat)

  /** The selection names packs, and the next chunk of the current one exists. */
  ghost predicate Sound(q: Queue) {
    && q.chunkSize > 0
    && (forall i :: 0 <= i < |q.selected| ==> q.selected[i] < |q.packs|)
    && q.current <= |q.selected|
    && (q.current < |q.selected| ==> q.currentChunk * q.chunkSize <= |CurrentPack(q).data|)
    && (q.current < |q.selected| && q.currentChunk > 0 ==> q.currentChunk * q.chunkSize < |CurrentPack(q).data|)
    && (q.current == |q.selected| ==> q.currentChunk == 0)
  }

  /** Chunk indices are 32-bit numbers, so no pack may have more than 2^32 chunks. */
  ghost predicate Indexable(packs: seq<Pack>, chunkSize: nat) {
    forall i :: 0 <= i < |packs| ==> |packs[i].data| <= 0x1_0000_0000 * chunkSize
  }

  function CurrentPack(q: Queue): Pack
    requires q.current < |q.selected| && q.selected[q.current] < |q.packs|
  {
    q.packs[q.selected[q.current]]
  }

  /** The request that the queue is waiting for. */
  predicate Accepts(q: Queue, uuid: string, index: UInt32) {
    && q.current < |q.selected| && q.selected[q.current] < |q.packs|
    && uuid == CurrentPack(q).uuid && index == q.currentChunk
    && index * q.chunkSize <= |CurrentPack(q).data|
  }

  function NextIndex(index: UInt32): UInt32 {
    if index == 0xffff_ffff then 0 else index + 1
  }

  function AfterRequest(q: Queue, uuid: string, index: UInt32): Queue {
    if !Accepts(q, uuid, index) then q
    else if IsLast(CurrentPack(q), q.chunkSize, index) then q.(current := q.current + 1, currentChunk := 0)
    else q.(currentChunk := NextIndex(q.currentChunk))
  }

  /** The packets that answer a request; the next pack is announced with the last chunk of this one. */
  function ReplyTo(q: Queue, uuid: string, index: UInt32): seq<Packet>
    requires q.chunkSize > 0
  {
    if !Accepts(q, uuid, index) then []
    else
      var after := AfterRequest(q, uuid, index);
      [ChunkOf(CurrentPack(q), q.chunkSize, index)]
      + if after.current != q.current && after.current < |q.selected| && q.selected[after.current] < |q.packs|
        then [InfoOf(CurrentPack(after), q.chunkSize)] else []
  }

  lemma RequestKeepsSound(q: Queue, uuid: string, index: UInt32)
    requires Sound(q) && Indexable(q.packs, q.chunkSize)
    ensures Sound(AfterRequest(q, uuid, index))
  {
    if Accepts(q, uuid, index) && !IsLast(CurrentPack(q), q.chunkSize, index) {
      IndexHasSuccessor(CurrentPack(q), q.chunkSize, index);
      NextOffset(index, q.chunkSize);
    }
  }

  // ---------- the whole download ----------

  /** Announcement and chunks of the packs of a selection, from its `k`-th on. */
  function DownloadFrom(packs: seq<Pack>, selected: seq<nat>, chunkSize: nat, k: nat): seq<Packet>
    requires chunkSize > 0 && k <= |selected| && forall i :: 0 <= i < |selected| ==> selected[i] < |packs|
    decreases |selected| - k
  {
    if k == |selected| then []
    else
      [InfoOf(packs[selected[k]], chunkSize)] + ChunksFrom(packs[selected[k]], chunkSize, 0)
      + DownloadFrom(packs, selected, chunkSize, k + 1)
  }

  /** What is still to be sent. */
  function Pending(q: Queue): seq<Packet>
    requires Sound(q)
  {
    if q.current == |q.selected| then []
    else ChunksFrom(CurrentPack(q), q.chunkSize, q.currentChunk)
         + DownloadFrom(q.packs, q.selected, q.chunkSize, q.current + 1)
  }

  /** How many accepted requests are still needed. */
  function Left(q: Queue): nat
    requires Sound(q)
  {
    if q.current == |q.selected| then 0
    else
      |ChunksFrom(CurrentPack(q), q.chunkSize, q.currentChunk)|
      + RequestsFrom(q.packs, q.selected, q.chunkSize, q.current + 1)
  }

  function RequestsFrom(packs: seq<Pack>, selected: seq<nat>, chunkSize: nat, k: nat): nat
    requires chunkSize > 0 && k <= |selected| && forall i :: 0 <= i < |selected| ==> selected[i] < |packs|
    decreases |selected| - k
  {
    if k == |selected| then 0
    else RequestsFor(packs[selected[k]], chunkSize) + RequestsFrom(packs, selected, chunkSize, k + 1)
  }

  /** The last chunk of a pack goes out together with the next pack's information. */
  lemma LastReply(q: Queue, uuid: string, index: UInt32)
    requires Sound(q) && Accepts(q, uuid, index) && IsLast(CurrentPack(q), q.chunkSize, index)
    ensures var after := AfterRequest(q, uuid, index);
            && Sound(after)
            && Pending(q) == ReplyTo(q, uuid, index) + Pending(after) && Left(q) == Left(after) + 1
  {
    var after := AfterRequest(q, uuid, index);
    var chunk := ChunkOf(CurrentPack(q), q.chunkSize, index);
    if after.current < |q.selected| {
      NextPack(q, after);
      Regroup([chunk], [InfoOf(CurrentPack(after), q.chunkSize)], Pending(after));
    }
  }

  /** The download from the `k`-th pack on. */
  lemma DownloadFirst(packs: seq<Pack>, selected: seq<nat>, chunkSize: nat, k: nat)
    requires chunkSize > 0 && k < |selected| && forall i :: 0 <= i < |selected| ==> selected[i] < |packs|
    ensures var pack := packs[selected[k]];
            && DownloadFrom(packs, selected, chunkSize, k)
               == [InfoOf(pack, chunkSize)]
                  + (ChunksFrom(pack, chunkSize, 0) + DownloadFrom(packs, selected, chunkSize, k + 1))
            && RequestsFrom(packs, selected, chunkSize, k)
               == |ChunksFrom(pack, chunkSize, 0)| + RequestsFrom(packs, selected, chunkSize, k + 1)
  {
    var pack := packs[selected[k]];
    ChunkCountIs(pack, chunkSize, 0);
    Regroup([InfoOf(pack, chunkSize)], ChunksFrom(pack, chunkSize, 0), DownloadFrom(packs, selected, chunkSize, k + 1));
  }

  /** After the last chunk of a pack comes the next pack. */
  lemma NextPack(q: Queue, after: Queue)
    requires Sound(q) && Sound(after) && q.current + 1 < |q.selected|
    requires IsLast(CurrentPack(q), q.chunkSize, q.currentChunk)
    requires after == q.(current := q.current + 1, currentChunk := 0)
    ensures Pending(q) == [ChunkOf(CurrentPack(q), q.chunkSize, q.currentChunk)]
                          + ([InfoOf(CurrentPack(after), q.chunkSize)] + Pending(after))
    ensures Left(q) == Left(after) + 1
  {
    DownloadFirst(q.packs, q.selected, q.chunkSize, q.current + 1);
    var chunks := ChunksFrom(CurrentPack(q), q.chunkSize, q.currentChunk);
    assert chunks == [ChunkOf(CurrentPack(q), q.chunkSize, q.currentChunk)];
    assert Pending(q) == chunks + DownloadFrom(q.packs, q.selected, q.chunkSize, q.current + 1);
    assert CurrentPack(after) == q.packs[q.selected[q.current + 1]];
    FirstChunks(after);
  }

  lemma FirstChunks(q: Queue)
    requires Sound(q) && q.current < |q.selected| && q.currentChunk == 0
    ensures Pending(q) == ChunksFrom(CurrentPack(q), q.chunkSize, 0)
                          + DownloadFrom(q.packs, q.selected, q.chunkSize, q.current + 1)
    ensures Left(q) == |ChunksFrom(CurrentPack(q), q.chunkSize, 0)|
                       + RequestsFrom(q.packs, q.selected, q.chunkSize, q.current + 1)
  {
  }

  lemma NextReply(q: Queue, uuid: string, index: UInt32)
    requires Sound(q) && Indexable(q.packs, q.chunkSize)
    requires Accepts(q, uuid, index) && !IsLast(CurrentPack(q), q.chunkSize, index)
    ensures var after := AfterRequest(q, uuid, index);
            && Sound(after)
            && Pending(q) == ReplyTo(q, uuid, index) + Pending(after) && Left(q) == Left(after) + 1
  {
    RequestKeepsSound(q, uuid, index);
    IndexHasSuccessor(CurrentPack(q), q.chunkSize, index);
    MovesOn(q, AfterRequest(q, uuid, index));
    assert [ChunkOf(CurrentPack(q), q.chunkSize, index)] + [] == [ChunkOf(CurrentPack(q), q.chunkSize, index)];
  }

  /** One chunk further in the same pack. */
  lemma MovesOn(q: Queue, after: Queue)
    requires Sound(q) && Sound(after) && q.current < |q.selected|
    requires !IsLast(CurrentPack(q), q.chunkSize, q.currentChunk)
    requires q.currentChunk < 0xffff_ffff && after == q.(currentChunk := q.currentChunk + 1)
    ensures Pending(q) == [ChunkOf(CurrentPack(q), q.chunkSize, q.currentChunk)] + Pending(after)
    ensures Left(q) == Left(after) + 1
  {
    var pack, cs, k := CurrentPack(q), q.chunkSize, q.currentChunk;
    ChunksFirst(pack, cs, k);
    Regroup([ChunkOf(pack, cs, k)], ChunksFrom(pack, cs, k + 1), DownloadFrom(q.packs, q.selected, cs, q.current + 1));
  }

  lemma ChunksFirst(pack: Pack, chunkSize: nat, index: nat)
    requires chunkSize > 0 && index * chunkSize <= |pack.data| && !IsLast(pack, chunkSize, index)
    ensures (index + 1) * chunkSize <= |pack.data|
    ensures ChunksFrom(pack, chunkSize, index)
         == [ChunkOf(pack, chunkSize, index)] + ChunksFrom(pack, chunkSize, index + 1)
  {
    NextOffset(index, chunkSize);
  }

  /** A chunk that is not the last of an indexable pack does not have the last index. */
  lemma IndexHasSuccessor(pack: Pack, chunkSize: nat, index: UInt32)
    requires |pack.data| <= 0x1_0000_0000 * chunkSize && !IsLast(pack, chunkSize, index)
    ensures NextIndex(index) == index + 1
  {
    NextOffset(0xffff_ffff, chunkSize);
  }

  /** A reply is the front of what is pending; each accepted request leaves one fewer. */
  lemma ReplyIsFrontOfPending(q: Queue, uuid: string, index: UInt32)
    requires Sound(q) && Indexable(q.packs, q.chunkSize)
    ensures var after := AfterRequest(q, uuid, index);
            && Sound(after)
            && Pending(q) == ReplyTo(q, uuid, index) + Pending(after)
            && Left(q) == Left(after) + if Accepts(q, uuid, index) then 1 else 0
  {
    if !Accepts(q, uuid, index) {
      assert [] + Pending(q) == Pending(q);
    } else if IsLast(CurrentPack(q), q.chunkSize, index) {
      LastReply(q, uuid, index);
    } else {
      NextReply(q, uuid, index);
    }
  }

  datatype ChunkRequest = ChunkRequest(uuid: string, index: UInt32)

  function AfterAll(q: Queue, requests: seq<ChunkRequest>): Queue
    decreases |requests|
  {
    if requests == [] then q else AfterAll(AfterRequest(q, requests[0].uuid, requests[0].index), requests[1..])
  }

  function RepliesTo(q: Queue, requests: seq<ChunkRequest>): seq<Packet>
    requires q.chunkSize > 0
    decreases |requests|
  {
    if requests == [] then []
    else ReplyTo(q, requests[0].uuid, requests[0].index)
         + RepliesTo(AfterRequest(q, requests[0].uuid, requests[0].index), requests[1..])
  }

  function AcceptedCount(q: Queue, requests: seq<ChunkRequest>): nat
    decreases |requests|
  {
    if requests == [] then 0
    else (if Accepts(q, requests[0].uuid, requests[0].index) then 1 else 0)
         + AcceptedCount(AfterRequest(q, requests[0].uuid, requests[0].index), requests[1..])
  }

  /**
   In every run of requests, right or wrong, what has been sent followed by what is pending is
   what was pending at first, and the accepted requests are the ones no longer needed.
   */
  lemma {:induction false} RunSendsPending(q: Queue, requests: seq<ChunkRequest>)
    requires Sound(q) && Indexable(q.packs, q.chunkSize)
    ensures var after := AfterAll(q, requests);
            && Sound(after)
            && Pending(q) == RepliesTo(q, requests) + Pending(after)
            && Left(q) == Left(after) + AcceptedCount(q, requests)
            && (Left(after) == 0 <==> after.current == |after.selected|)
    decreases |requests|
  {
    if requests == [] {
      assert [] + Pending(q) == Pending(q);
    } else {
      var first, rest := requests[0], requests[1..];
      var mid := AfterRequest(q, first.uuid, first.index);
      ReplyIsFrontOfPending(q, first.uuid, first.index);
      RunSendsPending(mid, rest);
      Regroup(ReplyTo(q, first.uuid, first.index), RepliesTo(mid, rest), Pending(AfterAll(mid, rest)));
    }
  }

  lemma Regroup(a: seq<Packet>, b: seq<Packet>, c: seq<Packet>)
    ensures a + (b + c) == (a + b) + c
  {
  }

  // ---------- selection ----------

  /** Splits a request at its first underscore into UUID and version; no version without one. */
  function CutRequest(request: string): (string, string) {
    if request == [] then ([], [])
    else if request[0] == '_' then ([], request[1..])
    else
      var (id, version) := CutRequest(request[1..]);
      ([request[0]] + id, version)
  }

  predicate Matches(pack: Pack, request: string) {
    var (id, version) := CutRequest(request);
    pack.uuid == id && (version == [] || pack.version == version)
  }

  lemma {:induction false} CutIs(request: string)
    ensures var (id, version) := CutRequest(request);
            && '_' !in id
            && (request == id + "_" + version || (request == id && version == []))
    decreases |request|
  {
    if request != [] && request[0] != '_' {
      CutIs(request[1..]);
    }
  }

  lemma {:induction false} CutOf(id: string, version: string)
    requires '_' !in id
    ensures CutRequest(id + "_" + version) == (id, version) && CutRequest(id) == (id, [])
    decreases |id|
  {
    if id == [] {
      assert id + "_" + version == "_" + version;
      assert ("_" + version)[1..] == version;
    } else {
      assert id[0] in id && forall c :: c in id[1..] ==> c in id;
      assert (id + "_" + version)[1..] == id[1..] + "_" + version;
      CutOf(id[1..], version);
      assert [id[0]] + id[1..] == id;
    }
  }

  /** A request names a pack by its UUID alone, or by UUID and version. */
  lemma MatchesIff(pack: Pack, request: string)
    requires '_' !in pack.uuid
    ensures Matches(pack, request)
            <==> request == pack.uuid || request == pack.uuid + "_" || request == pack.uuid + "_" + pack.version
  {
    CutIs(request);
    CutOf(pack.uuid, pack.version);
    CutOf(pack.uuid, []);
    assert pack.uuid + "_" + [] == pack.uuid + "_";
  }

  /** The first pack from `i` on that matches. */
  function FindFrom(packs: seq<Pack>, request: string, i: nat): (r: Option<nat>)
    requires i <= |packs|
    ensures r.Some? ==> i <= r.value < |packs| && Matches(packs[r.value], request)
    ensures forall k :: i <= k < (if r.Some? then r.value else |packs|) ==> !Matches(packs[k], request)
    decreases |packs| - i
  {
    if i == |packs| then None else if Matches(packs[i], request) then Some(i) else FindFrom(packs, request, i + 1)
  }

  datatype Selection = Selection(selected: seq<nat>, ok: bool)

  /** Adds the pack of each request once; stops at a request that matches no pack. */
  function SelectAll(packs: seq<Pack>, requests: seq<string>, selected: seq<nat>): Selection
    decreases |requests|
  {
    if requests == [] then Selection(selected, true)
    else
      match FindFrom(packs, requests[0], 0)
      case None => Selection(selected, false)
      case Some(i) => SelectAll(packs, requests[1..], if i in selected then selected else selected + [i])
  }

  ghost predicate Distinct(selected: seq<nat>) {
    forall i, j :: 0 <= i < j < |selected| ==> selected[i] != selected[j]
  }

  /**
   A selection is free of duplicates and in range, also a failed one; a successful one holds
   the pack of every request and nothing else.
   */
  lemma {:induction false} SelectionIs(packs: seq<Pack>, requests: seq<string>, selected: seq<nat>)
    requires Distinct(selected) && forall i :: 0 <= i < |selected| ==> selected[i] < |packs|
    ensures var r := SelectAll(packs, requests, selected);
            && Distinct(r.selected) && selected <= r.selected
            && (forall i :: 0 <= i < |r.selected| ==> r.selected[i] < |packs|)
            && (r.ok <==> forall k :: 0 <= k < |requests| ==> FindFrom(packs, requests[k], 0).Some?)
            && (r.ok ==> forall p :: p in r.selected <==>
                  p in selected || exists k :: 0 <= k < |requests| && FindFrom(packs, requests[k], 0) == Some(p))
    decreases |requests|
  {
    if requests != [] {
      match FindFrom(packs, requests[0], 0)
      case None =>
      case Some(i) =>
        var more := if i in selected then selected else selected + [i];
        SelectionIs(packs, requests[1..], more);
        assert forall k :: 0 <= k < |requests| ==> requests[k] == if k == 0 then requests[0] else requests[1..][k - 1];
    }
  }

  function NewQueue(packs: seq<Pack>): Queue {
    Queue(packs, [], 0, 0, DEFAULT_CHUNK_SIZE)
  }

  function AfterBegin(q: Queue, requests: seq<string>): Queue {
    q.(selected := SelectAll(q.packs, requests, []).selected, current := 0, currentChunk := 0)
  }

  /** The packets that answer a selection; nothing when it fails. */
  function BeginReply(q: Queue, requests: seq<string>): (r: Option<seq<Packet>>)
    requires q.chunkSize > 0
  {
    SelectionIs(q.packs, requests, []);
    var selection := SelectAll(q.packs, requests, []);
    if !selection.ok then None
    else if selection.selected == [] then Some([])
    else Some([InfoOf(q.packs[selection.selected[0]], q.chunkSize)])
  }

  /** A new queue has nothing selected, and sends chunks of 128 KiB. */
  lemma NewQueueIs(packs: seq<Pack>)
    ensures var q := NewQueue(packs);
            q.packs == packs && q.selected == [] && q.current == 0 && q.currentChunk == 0 && q.chunkSize == 131072
  {
  }

  /** A chunk request is answered exactly if it names the current pack and the next chunk of it. */
  lemma AnsweredIff(q: Queue, uuid: string, index: UInt32)
    requires Sound(q)
    ensures ReplyTo(q, uuid, index) != []
            <==> && q.current < |q.selected|
                 && uuid == q.packs[q.selected[q.current]].uuid && index == q.currentChunk
    ensures ReplyTo(q, uuid, index) == [] ==> AfterRequest(q, uuid, index) == q
  {
  }

  lemma BeginIsSound(q: Queue, selection: seq<string>)
    requires q.chunkSize > 0 && BeginReply(q, selection).Some?
    ensures var begun := AfterBegin(q, selection);
            && Sound(begun) && Distinct(begun.selected)
            && DownloadFrom(q.packs, begun.selected, q.chunkSize, 0) == BeginReply(q, selection).value + Pending(begun)
            && Left(begun) == RequestsFrom(q.packs, begun.selected, q.chunkSize, 0)
  {
    SelectionIs(q.packs, selection, []);
    var begun := AfterBegin(q, selection);
    if begun.selected != [] {
      var first := CurrentPack(begun);
      ChunkCountIs(first, q.chunkSize, 0);
      Regroup([InfoOf(first, q.chunkSize)], ChunksFrom(first, q.chunkSize, 0),
              DownloadFrom(q.packs, begun.selected, q.chunkSize, 1));
    }
  }

  /**
   The whole download: after a successful selection, for every run of requests, all packets
   sent are a front of the announcements and chunks of the selected packs in order, followed
   by what is pending; when everything is delivered they are all of it.
   */
  lemma DownloadIsExact(q: Queue, selection: seq<string>, requests: seq<ChunkRequest>)
    requires q.chunkSize > 0 && Indexable(q.packs, q.chunkSize) && BeginReply(q, selection).Some?
    ensures var begun := AfterBegin(q, selection);
            var after := AfterAll(begun, requests);
            var sent := BeginReply(q, selection).value + RepliesTo(begun, requests);
            && Sound(begun) && Sound(after) && Distinct(begun.selected)
            && DownloadFrom(q.packs, begun.selected, q.chunkSize, 0) == sent + Pending(after)
            && (after.current == |after.selected| ==> sent == DownloadFrom(q.packs, begun.selected, q.chunkSize, 0))
  {
    var begun := AfterBegin(q, selection);
    var after := AfterAll(begun, requests);
    BeginIsSound(q, selection);
    RunSendsPending(begun, requests);
    var sent := BeginReply(q, selection).value + RepliesTo(begun, requests);
    Regroup(BeginReply(q, selection).value, RepliesTo(begun, requests), Pending(after));
    assert sent + [] == sent;
  }

  /** Everything is delivered exactly after one accepted request per chunk, and one for an empty pack. */
  lemma DownloadTakes(q: Queue, selection: seq<string>, requests: seq<ChunkRequest>)
    requires q.chunkSize > 0 && Indexable(q.packs, q.chunkSize) && BeginReply(q, selection).Some?
    ensures var begun := AfterBegin(q, selection);
            var after := AfterAll(begun, requests);
            && Sound(begun)
            && AcceptedCount(begun, requests) <= RequestsFrom(q.packs, begun.selected, q.chunkSize, 0)
            && (after.current == |after.selected|
                <==> AcceptedCount(begun, requests) == RequestsFrom(q.packs, begun.selected, q.chunkSize, 0))
  {
    BeginIsSound(q, selection);
    RunSendsPending(AfterBegin(q, selection), requests);
  }

  /** What a client assembles of the `k`-th pack is the pack's data. */
  lemma PackIsDelivered(packs: seq<Pack>, selected: seq<nat>, chunkSize: nat, k: nat)
    requires chunkSize > 0 && k < |selected| && forall i :: 0 <= i < |selected| ==> selected[i] < |packs|
    ensures var pack := packs[selected[k]];
            && DownloadFrom(packs, selected, chunkSize, k)
               == [InfoOf(pack, chunkSize)] + ChunksFrom(pack, chunkSize, 0)
                 + DownloadFrom(packs, selected, chunkSize, k + 1)
            && Payload(ChunksFrom(pack, chunkSize, 0)) == pack.data
            && Assemble(ChunksFrom(pack, chunkSize, 0)) == Some(pack.data)
            && |ChunksFrom(pack, chunkSize, 0)| == RequestsFor(pack, chunkSize)
  {
    PackIsAssembled(packs[selected[k]], chunkSize);
    ChunksCarryData(packs[selected[k]], chunkSize, 0);
    ChunkCountIs(packs[selected[k]], chunkSize, 0);
  }
}
