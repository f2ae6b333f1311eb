/**
 What a client knows of another player: the picture that the packets it was sent about that
 player's runtime ID add up to.
 */
module Replicas {
  import opened Wrappers
  import opened ItemStacks

  // ---------- entity metadata ----------

  datatype MetaKey = FlagsKey | FlagsTwoKey | OtherKey(id: nat)

  /** A flag word as the set of its bits, or any other value. */
  datatype MetaValue = Flags(bits: set<nat>) | OtherValue(value: int)

  type Metadata = map<MetaKey, MetaValue>
  type Flag = n: nat | n < 128

  function SetFlag(m: Metadata, flag: Flag, value: bool): (Metadata, bool) {
    var key := if flag >= 64 then FlagsTwoKey else FlagsKey;
    var index := if flag >= 64 then flag - 64 else flag;
    var current := if key in m && m[key].Flags? then m[key].bits else {};
    var next := if value then current + {index} else current - {index};
    if next == current then (m, false) else (m[key := Flags(next)], true)
  }

  /** Start and stop bits of one flag; with both or neither the flag stays. */
  datatype Toggle = Toggle(flag: Flag, started: bool, stopped: bool)

  function ApplyToggle(m: Metadata, toggle: Toggle): (Metadata, bool) {
    if toggle.started == toggle.stopped then (m, false) else SetFlag(m, toggle.flag, toggle.started)
  }

  function ApplyToggles(m: Metadata, toggles: seq<Toggle>): (Metadata, bool)
    decreases |toggles|
  {
    if toggles == [] then (m, false)
    else
      var (m', changed) := ApplyToggle(m, toggles[0]);
      var (m'', changed') := ApplyToggles(m', toggles[1..]);
      (m'', changed || changed')
  }

  /** The sneaking flag follows the input, the other flags their toggles. */
  datatype Input = Input(sneakingFlag: Flag, sneaking: bool, toggles: seq<Toggle>)

  function UpdateMetadata(m: Metadata, input: Input): (Metadata, bool) {
    var (m', changed) := SetFlag(m, input.sneakingFlag, input.sneaking);
    var (m'', changed') := ApplyToggles(m', input.toggles);
    (m'', changed || changed')
  }

  lemma {:induction false} TogglesReportChanges(m: Metadata, toggles: seq<Toggle>)
    ensures var (m', changed) := ApplyToggles(m, toggles);
            m.Keys <= m'.Keys && (!changed ==> m' == m)
    decreases |toggles|
  {
    if toggles != [] {
      TogglesReportChanges(ApplyToggle(m, toggles[0]).0, toggles[1..]);
    }
  }

  /** No key is lost, and an update that reports no change made none. */
  lemma UpdateReportsChanges(m: Metadata, input: Input)
    ensures var (m', changed) := UpdateMetadata(m, input);
            m.Keys <= m'.Keys && (!changed ==> m' == m)
  {
    TogglesReportChanges(SetFlag(m, input.sneakingFlag, input.sneaking).0, input.toggles);
  }

  /** Bit `flag % 64` of the first or the second flag word. */
  predicate HasFlag(m: Metadata, flag: Flag) {
    var key := if flag / 64 == 0 then FlagsKey else FlagsTwoKey;
    key in m && m[key].Flags? && flag % 64 in m[key].bits
  }

  /** Nothing but flags differs. */
  ghost predicate SameButFlags(m: Metadata, m': Metadata) {
    forall id ::
      && (OtherKey(id) in m <==> OtherKey(id) in m')
      && (OtherKey(id) in m ==> m[OtherKey(id)] == m'[OtherKey(id)])
  }

  /** Setting a flag changes that flag and no other, and reports exactly whether it changed. */
  lemma SetFlagIs(m: Metadata, flag: Flag, value: bool, other: Flag)
    ensures var (m', changed) := SetFlag(m, flag, value);
            && HasFlag(m', other) == (if other == flag then value else HasFlag(m, other))
            && (changed <==> HasFlag(m, flag) != value)
            && SameButFlags(m, m')
  {
    var (m', changed) := SetFlag(m, flag, value);
    assert flag / 64 == 0 <==> flag < 64;
    assert flag % 64 == if flag < 64 then flag else flag - 64;
    assert other % 64 == if other < 64 then other else other - 64;
  }

  /** What the toggles make of a flag: the last one that is either started or stopped decides. */
  function Toggled(toggles: seq<Toggle>, flag: Flag, before: bool): bool {
    if toggles == [] then before
    else
      var last := toggles[|toggles| - 1];
      if last.flag == flag && last.started != last.stopped then last.started
      else Toggled(toggles[..|toggles| - 1], flag, before)
  }

  lemma {:induction false} ToggledFirst(toggles: seq<Toggle>, flag: Flag, before: bool)
    requires toggles != []
    ensures var first := toggles[0];
            var next := if first.flag == flag && first.started != first.stopped then first.started else before;
            Toggled(toggles, flag, before) == Toggled(toggles[1..], flag, next)
    decreases |toggles|
  {
    if |toggles| > 1 {
      var n := |toggles| - 1;
      ToggledFirst(toggles[..n], flag, before);
      assert toggles[1..][..n - 1] == toggles[..n][1..];
    } else {
      assert toggles[1..] == [] && toggles[..0] == [];
    }
  }

  lemma {:induction false} TogglesAre(m: Metadata, toggles: seq<Toggle>, flag: Flag)
    ensures var m' := ApplyToggles(m, toggles).0;
            HasFlag(m', flag) == Toggled(toggles, flag, HasFlag(m, flag)) && SameButFlags(m, m')
    decreases |toggles|
  {
    if toggles != [] {
      SetFlagIs(m, toggles[0].flag, toggles[0].started, flag);
      ToggledFirst(toggles, flag, HasFlag(m, flag));
      TogglesAre(ApplyToggle(m, toggles[0]).0, toggles[1..], flag);
    }
  }

  /** An input sets the sneaking flag as it says and every other flag as its toggles say. */
  lemma UpdateIs(m: Metadata, input: Input, flag: Flag)
    ensures var m' := UpdateMetadata(m, input).0;
            var before := if flag == input.sneakingFlag then input.sneaking else HasFlag(m, flag);
            HasFlag(m', flag) == Toggled(input.toggles, flag, before) && SameButFlags(m, m')
  {
    SetFlagIs(m, input.sneakingFlag, input.sneaking, flag);
    TogglesAre(SetFlag(m, input.sneakingFlag, input.sneaking).0, input.toggles, flag);
  }

  // ---------- packets ----------

  type RuntimeId = nat
  type Uuid = nat

  datatype Vec = Vec(x: int, y: int, z: int)
  /** The way from one position to another. */
  function Minus(a: Vec, b: Vec): Vec {
    Vec(a.x - b.x, a.y - b.y, a.z - b.z)
  }

  datatype Pose = Pose(position: Vec, pitch: int, yaw: int, headYaw: int)

  datatype Packet =
    | AddPlayer(id: RuntimeId, uuid: Uuid, pose: Pose, velocity: Vec, held: Item, metadata: Metadata)
    | MovePlayer(id: RuntimeId, pose: Pose, onGround: bool)
    | SetActorData(id: RuntimeId, metadata: Metadata)
    | SetActorMotion(id: RuntimeId, velocity: Vec)
    | MobEquipment(id: RuntimeId, held: Item)
    | RemoveActor(id: RuntimeId)
    | PlayerListAdd(entries: seq<Uuid>)
    | PlayerListRemove(entry: Uuid)
    | OtherPacket

  /** The packet speaks of the runtime ID. */
  predicate About(packet: Packet, id: RuntimeId) {
    match packet
    case AddPlayer(id', _, _, _, _, _) => id' == id
    case MovePlayer(id', _, _) => id' == id
    case SetActorData(id', _) => id' == id
    case SetActorMotion(id', _) => id' == id
    case MobEquipment(id', _) => id' == id
    case RemoveActor(id') => id' == id
    case _ => false
  }

  // ---------- pictures ----------

  /** The part of a player that is replicated: pose, metadata and held item. */
  datatype Avatar = Avatar(pose: Pose, metadata: Metadata, held: Item)

  /** A client merges metadata and ignores updates for players it was not shown. */
  function Look(view: Option<Avatar>, packet: Packet, id: RuntimeId): Option<Avatar> {
    if !About(packet, id) then view
    else
      match packet
      case AddPlayer(_, _, pose, _, held, metadata) => Some(Avatar(pose, metadata, held))
      case RemoveActor(_) => None
      case MovePlayer(_, pose, _) => if view.None? then None else Some(view.value.(pose := pose))
      case SetActorData(_, metadata) => if view.None? then None
        else Some(view.value.(metadata := view.value.metadata + metadata))
      case MobEquipment(_, held) => if view.None? then None else Some(view.value.(held := held))
      case _ => view
  }

  function LookAll(view: Option<Avatar>, packets: seq<Packet>, id: RuntimeId): Option<Avatar>
    decreases |packets|
  {
    if packets == [] then view else LookAll(Look(view, packets[0], id), packets[1..], id)
  }

  /** What a client that was sent these packets knows of a runtime ID. */
  function View(log: seq<Packet>, id: RuntimeId): Option<Avatar> {
    LookAll(None, log, id)
  }

  lemma {:induction false} LookAllConcat(view: Option<Avatar>, a: seq<Packet>, b: seq<Packet>, id: RuntimeId)
    ensures LookAll(view, a + b, id) == LookAll(LookAll(view, a, id), b, id)
    decreases |a|
  {
    if a == [] {
      assert a + b == b;
    } else {
      assert (a + b)[1..] == a[1..] + b;
      LookAllConcat(Look(view, a[0], id), a[1..], b, id);
    }
  }

  /** Being sent a packet is looking at it. */
  lemma ViewAppend(log: seq<Packet>, packet: Packet, id: RuntimeId)
    ensures View(log + [packet], id) == Look(View(log, id), packet, id)
  {
    LookAllConcat(None, log, [packet], id);
    assert [packet][1..] == [];
  }

  /** Being sent the same packet twice makes no difference. */
  lemma LookTwice(view: Option<Avatar>, packet: Packet, id: RuntimeId)
    ensures Look(Look(view, packet, id), packet, id) == Look(view, packet, id)
  {
    if packet.SetActorData? && view.Some? {
      var m := view.value.metadata;
      assert (m + packet.metadata) + packet.metadata == m + packet.metadata;
    }
  }
}
