/**
 * The progress snapshot of FocusForge: the record the client keeps in
 * `state` (app.js) and the server stores per user (server.js), its wire
 * form with optional fields, and the defaulting both sides apply to it.
 */
module Snapshot {
  import opened Wrappers

  type ItemId = string

  /** The three equip slots of the avatar. */
  datatype Slot = Hat | Outfit | Accessory

  /** `equipped`: one item id per slot, the empty string meaning "nothing". */
  datatype Equipped = Equipped(hat: ItemId, outfit: ItemId, accessory: ItemId) {
    /** `equipped[slot]` */
    function Get(slot: Slot): ItemId {
      match slot
      case Hat => hat
      case Outfit => outfit
      case Accessory => accessory
    }

    /** `equipped[slot] = id` */
    function Set(slot: Slot, id: ItemId): (e: Equipped)
      ensures e.Get(slot) == id
      ensures forall other: Slot :: other != slot ==> e.Get(other) == Get(other)
    {
      match slot
      case Hat => this.(hat := id)
      case Outfit => this.(outfit := id)
      case Accessory => this.(accessory := id)
    }
  }

  const NothingEquipped := Equipped("", "", "")

  /** One user's progress. `points` is exact: it only moves in steps of 0.5 and by integer costs. */
  datatype Progress = Progress(
    totalSeconds: int,
    focusSeconds: int,
    distractionCount: int,
    points: real,
    owned: seq<ItemId>,
    equipped: Equipped)

  predicate NoDuplicates(ids: seq<ItemId>) {
    forall i, j :: 0 <= i < j < |ids| ==> ids[i] != ids[j]
  }

  /** Every slot that holds an item holds one that was bought. */
  predicate EquippedOwned(e: Equipped, owned: seq<ItemId>) {
    forall slot: Slot :: e.Get(slot) != "" ==> e.Get(slot) in owned
  }

  /** The invariants every operation of the economy and of the tick keeps. */
  predicate Consistent(p: Progress) {
    && 0 <= p.focusSeconds <= p.totalSeconds
    && 0 <= p.distractionCount
    && p.points >= 0.0
    && NoDuplicates(p.owned)
    && EquippedOwned(p.equipped, p.owned)
  }

  /** `defaultProgress()`: the snapshot of a new account and of a logged-out client. */
  function DefaultProgress(): (d: Progress)
    ensures Consistent(d)
    ensures d.totalSeconds == 0 && d.focusSeconds == 0 && d.distractionCount == 0 && d.points == 0.0
    ensures d.owned == [] && d.equipped == NothingEquipped
  {
    Progress(0, 0, 0, 0.0, [], NothingEquipped)
  }

  /** The JSON value found under `owned`: an array of ids, or anything else. */
  datatype OwnedValue = IdArray(ids: seq<ItemId>) | NotAnArray

  /** A progress object as it arrives over the wire: any field may be missing. */
  datatype Payload = Payload(
    totalSeconds: Option<int>,
    focusSeconds: Option<int>,
    distractionCount: Option<int>,
    points: Option<real>,
    owned: Option<OwnedValue>,
    equipped: Option<Equipped>)

  /** `{}` */
  const EmptyPayload := Payload(None, None, None, None, None, None)

  /** All six fields are present and `owned` is an array. */
  predicate Complete(p: Payload) {
    && p.totalSeconds.Some?
    && p.focusSeconds.Some?
    && p.distractionCount.Some?
    && p.points.Some?
    && p.owned.Some? && p.owned.value.IdArray?
    && p.equipped.Some?
  }

  /** `Array.isArray(owned) ? owned : []` */
  function OwnedOrEmpty(owned: Option<OwnedValue>): seq<ItemId> {
    match owned
    case Some(IdArray(ids)) => ids
    case _ => []
  }

  /**
   * The field-by-field defaulting that `applyProgress` applies when the
   * client loads a snapshot and `saveProgressForUser` applies when the
   * server stores one.
   */
  function Normalize(p: Payload): (s: Progress)
    ensures Complete(p) ==> s.owned == p.owned.value.ids && s.points == p.points.value
  {
    Progress(
      p.totalSeconds.GetOr(0),
      p.focusSeconds.GetOr(0),
      p.distractionCount.GetOr(0),
      p.points.GetOr(0.0),
      OwnedOrEmpty(p.owned),
      p.equipped.GetOr(NothingEquipped))
  }

  /** `serializeProgress()`: the full snapshot, every field present. */
  function Serialize(s: Progress): (p: Payload)
    ensures Complete(p)
    ensures Normalize(p) == s
  {
    Payload(Some(s.totalSeconds), Some(s.focusSeconds), Some(s.distractionCount),
            Some(s.points), Some(IdArray(s.owned)), Some(s.equipped))
  }

  /** Loading then serializing gives back the payload exactly when nothing had to be defaulted. */
  lemma SerializeAfterNormalize(p: Payload)
    ensures Serialize(Normalize(p)) == p <==> Complete(p)
  {
  }

  /** `applyProgress({})`, as done at logout, yields the default snapshot. */
  lemma NormalizeEmpty()
    ensures Normalize(EmptyPayload) == DefaultProgress()
  {
  }

  /** Each missing field becomes its default, a non-array `owned` becomes `[]`, present fields are kept. */
  lemma NormalizeDefaults(p: Payload)
    ensures Normalize(p).totalSeconds == (if p.totalSeconds.Some? then p.totalSeconds.value else 0)
    ensures Normalize(p).focusSeconds == (if p.focusSeconds.Some? then p.focusSeconds.value else 0)
    ensures Normalize(p).distractionCount == (if p.distractionCount.Some? then p.distractionCount.value else 0)
    ensures Normalize(p).points == (if p.points.Some? then p.points.value else 0.0)
    ensures Normalize(p).owned == (if p.owned.Some? && p.owned.value.IdArray? then p.owned.value.ids else [])
    ensures Normalize(p).equipped == (if p.equipped.Some? then p.equipped.value else NothingEquipped)
  {
  }
}
