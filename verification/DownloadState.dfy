/** The download queue object, which a selection resets and every accepted chunk request advances. */
module DownloadState {
  import opened Numbers
  import opened Wrappers
  import opened DownloadQueue

  class DownloadState {
    const packs: seq<Pack>
    const chunkSize: nat
    var selected: seq<nat>
    var current: nat
    var currentChunk: UInt32

    ghost function Model(): Queue
      reads this
    {
      Queue(packs, selected, current, currentChunk, chunkSize)
    }

    ghost predicate Valid()
      reads this
    {
      Sound(Model()) && Indexable(packs, chunkSize)
    }

    constructor (packs: seq<Pack>)
      requires Indexable(packs, DEFAULT_CHUNK_SIZE)
      ensures Valid() && Model() == NewQueue(packs)
    {
      this.packs, chunkSize := packs, DEFAULT_CHUNK_SIZE;
      selected, current, currentChunk := [], 0, 0;
    }

    /** The first pack with the requested UUID and, if the request names one, version. */
    method FindPack(request: string) returns (r: Option<nat>)
      ensures r == FindFrom(packs, request, 0)
    {
      for index := 0 to |packs|
        invariant FindFrom(packs, request, 0) == FindFrom(packs, request, index)
      {
        if Matches(packs[index], request) {
          return Some(index);
        }
      }
      r := None;
    }

    /** A failed selection keeps the packs found before the failure, and sends nothing. */
    method Begin(requests: seq<string>) returns (r: Option<seq<Packet>>)
      requires Valid()
      modifies this
      ensures Valid() && Model() == AfterBegin(old(Model()), requests)
      ensures r == BeginReply(old(Model()), requests)
    {
      SelectionIs(packs, requests, []);
      selected, current, currentChunk := [], 0, 0;
      var seen: set<nat> := {};
      for k := 0 to |requests|
        invariant SelectAll(packs, requests, []) == SelectAll(packs, requests[k..], selected)
        invariant current == 0 && currentChunk == 0
        invariant forall i :: i in seen <==> i in selected
      {
        var found := FindPack(requests[k]);
        assert requests[k..][1..] == requests[k + 1..];
        if found.None? {
          return None;
        }
        if found.value !in seen {
          seen := seen + {found.value};
          selected := selected + [found.value];
        }
      }
      if |selected| == 0 {
        return Some([]);
      }
      r := Some([InfoOf(packs[selected[0]], chunkSize)]);
    }

    /** Any request but the expected one is refused and changes nothing. */
    method HandleChunkRequest(uuid: string, index: UInt32) returns (r: Option<seq<Packet>>)
      requires Valid()
      modifies this
      ensures Valid() && Model() == AfterRequest(old(Model()), uuid, index)
      ensures r.Some? <==> Accepts(old(Model()), uuid, index)
      ensures r.Some? ==> r.value == ReplyTo(old(Model()), uuid, index)
      ensures r.None? ==> Model() == old(Model())
    {
      RequestKeepsSound(Model(), uuid, index);
      if |selected| == 0 || current >= |selected| {
        return None;
      }
      var pack := packs[selected[current]];
      if uuid != pack.uuid || index != currentChunk {
        return None;
      }
      var packets := [ChunkOf(pack, chunkSize, index)];
      currentChunk := NextIndex(currentChunk);
      if IsLast(pack, chunkSize, index) {
        current, currentChunk := current + 1, 0;
        if current < |selected| {
          packets := packets + [InfoOf(packs[selected[current]], chunkSize)];
        }
      }
      r := Some(packets);
    }
  }
}
