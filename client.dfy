/**
 * The client's `state` record (app.js) as an object whose methods update
 * its fields in place, as `buyItem`, `equipItem`, `checkInactivity`,
 * `onActiveSignal`, `tick`, `applyProgress` and the login and logout
 * handlers do. Each method is proved to leave the object in the state
 * that the matching function of module Monitor describes, so every
 * property proved there holds of the object.
 */
module Client {
  import opened Wrappers
  import opened Snapshot
  import opened Economy
  import opened Monitor

  class Tracker {
    var totalSeconds: int
    var focusSeconds: int
    var distractionCount: int
    var points: real
    var owned: seq<ItemId>
    var equipped: Equipped
    var inactiveSince: Option<int>
    var inactivityModalOpen: bool
    var username: Option<string>
    /** The save requests made so far (`saveProgress` and `saveState`), with what they carried. */
    var flushes: seq<Flush>

    /** The progress part of the record. */
    function Progress(): Progress
      reads this
    {
      Snapshot.Progress(totalSeconds, focusSeconds, distractionCount, points, owned, equipped)
    }

    /** The whole record as a value. */
    function State(): Model
      reads this
    {
      Model(Progress(), inactiveSince, inactivityModalOpen, username, flushes)
    }

    /** The `state` literal the page starts from: zero progress, no idle episode, nobody logged in. */
    constructor ()
      ensures State() == Initial
    {
      totalSeconds, focusSeconds, distractionCount, points := 0, 0, 0, 0.0;
      owned, equipped := [], NothingEquipped;
      inactiveSince, inactivityModalOpen := None, false;
      username, flushes := None, [];
    }

    /** `applyProgress(progress)`: every progress field overwritten, missing ones by their default. */
    method ApplyProgress(progress: Payload)
      modifies this
      ensures Progress() == Normalize(progress)
      ensures State() == old(State()).(progress := Normalize(progress))
    {
      totalSeconds := progress.totalSeconds.GetOr(0);
      focusSeconds := progress.focusSeconds.GetOr(0);
      distractionCount := progress.distractionCount.GetOr(0);
      points := progress.points.GetOr(0.0);
      owned := OwnedOrEmpty(progress.owned);
      equipped := progress.equipped.GetOr(NothingEquipped);
    }

    /** `serializeProgress()`: a complete snapshot that loads back to exactly this record. */
    function SerializeProgress(): (p: Payload)
      reads this
      ensures Complete(p) && Normalize(p) == Progress()
    {
      Payload(Some(totalSeconds), Some(focusSeconds), Some(distractionCount),
              Some(points), Some(IdArray(owned)), Some(equipped))
    }

    /** `ownItem(id)` */
    function OwnItem(id: ItemId): (b: bool)
      reads this
      ensures b <==> Economy.OwnItem(Progress(), id)
    {
      id in owned
    }

    /** `saveProgress()`: records a request to the server when someone is logged in. */
    method SaveProgress()
      modifies this`flushes
      ensures State() == Monitor.SaveProgress(old(State()))
    {
      if username.Some? && username.value != "" {
        flushes := flushes + [Flush(Remote, Progress())];
      }
    }

    /**
     * `saveProgressBeacon()` at page unload: the same request as `saveProgress`,
     * made only when the browser offers `sendBeacon`.
     */
    method SaveProgressBeacon(beaconSupported: bool)
      modifies this`flushes
      ensures State() == if beaconSupported then Monitor.SaveProgress(old(State())) else old(State())
    {
      if !(username.Some? && username.value != "") || !beaconSupported {
        return;
      }
      flushes := flushes + [Flush(Remote, Progress())];
    }

    /** `saveState()`: records a write of the snapshot to the browser store. */
    method SaveState()
      modifies this`flushes
      ensures State() == Monitor.SaveState(old(State()))
    {
      flushes := flushes + [Flush(Local, Progress())];
    }

    /**
     * `buyItem(item)`. The guard is repeated after the first purchase, as in
     * the source; by then the item is owned, so the second block never runs.
     */
    method BuyItem(item: Item)
      modifies this
      ensures State() == Monitor.BuyItem(old(State()), item)
    {
      if OwnItem(item.id) || points < item.cost as real {
        return;
      }
      points := points - item.cost as real;
      owned := owned + [item.id];
      equipped := equipped.Set(item.slot, item.id);
      SaveProgress();
      if OwnItem(item.id) || points < item.cost as real {
        return;
      }
      // the second purchase and its `saveState()` cannot be reached
      assert false;
    }

    /** `equipItem(item)` */
    method EquipItem(item: Item)
      modifies this
      ensures State() == Monitor.EquipItem(old(State()), item)
    {
      if !OwnItem(item.id) {
        return;
      }
      equipped := equipped.Set(item.slot, item.id);
      SaveProgress();
      SaveState();
    }

    /** `onActiveSignal()` */
    method OnActiveSignal()
      modifies this
      ensures State() == Monitor.OnActiveSignal(old(State()))
    {
      inactiveSince := None;
      if inactivityModalOpen {
        inactivityModalOpen := false;
      }
    }

    /**
     * `checkInactivity()`, reading the clock as `now` and `document.hidden`
     * as `hidden`. The source tests the timestamp twice; the second copy
     * always finds it set.
     */
    method CheckInactivity(now: int, hidden: bool) returns (distracted: bool)
      modifies this
      ensures Checked(State(), distracted) == Monitor.CheckInactivity(old(State()), now, hidden)
    {
      if hidden && !(inactiveSince.Some? && inactiveSince.value != 0) {
        inactiveSince := Some(now);
      }
      if !(inactiveSince.Some? && inactiveSince.value != 0) {
        return false;
      }
      // the repeated copy of the two tests finds the timestamp set and does nothing
      assert inactiveSince.Some? && inactiveSince.value != 0;
      var inactiveDuration := now - inactiveSince.value;
      if inactiveDuration >= InactivityLimitMs && !inactivityModalOpen {
        distractionCount := distractionCount + 1;
        inactivityModalOpen := true;
        SaveProgress();
        SaveState();
        return true;
      }
      return inactivityModalOpen;
    }

    /** `tick()`, once per second. */
    method Tick(now: int, hidden: bool)
      modifies this
      ensures State() == Monitor.Tick(old(State()), now, hidden)
    {
      if !(username.Some? && username.value != "") {
        return;
      }
      totalSeconds := totalSeconds + 1;
      var distracted := CheckInactivity(now, hidden);
      if !distracted {
        focusSeconds := focusSeconds + 1;
        points := points + PointsPerFocusSecond;
      }
      if totalSeconds % 10 == 0 {
        SaveProgress();
      }
    }

    /** A successful login or session resume: the user and the snapshot the server returned. */
    method SignIn(name: string, progress: Payload)
      modifies this
      ensures State() == old(State()).(username := Some(name), progress := Normalize(progress))
    {
      username := Some(name);
      ApplyProgress(progress);
    }

    /** The logout handler: a last save to the server, then nobody logged in and a zero snapshot. */
    method SignOut()
      modifies this
      ensures State() == Monitor.SaveProgress(old(State())).(username := None, progress := DefaultProgress())
      ensures Wellformed(old(State())) ==> Wellformed(State())
    {
      SaveProgress();
      username := None;
      ApplyProgress(EmptyPayload);
      NormalizeEmpty();
    }
  }
}
