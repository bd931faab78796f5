/**
 * The client's activity and tick state machine (app.js), as functions on
 * a value that mirrors the `state` record: the inactivity detector
 * (`checkInactivity`, `onActiveSignal`), the per-second `tick`, and the
 * shop operations with the save requests they make. The class
 * Client.Tracker updates the same fields in place and is proved to agree
 * with these functions.
 */
module Monitor {
  import opened Wrappers
  import opened Snapshot
  import opened Economy

  const TickMs := 1000
  const InactivityLimitMs := 60 * 1000
  const PointsPerFocusSecond: real := 0.5

  /** Where a save request goes: the server (`saveProgress`) or the browser store (`saveState`). */
  datatype Tier = Remote | Local

  /** A save request with the snapshot it carries. */
  datatype Flush = Flush(tier: Tier, snapshot: Progress)

  /**
   * The client's `state`: the progress fields, the idle timestamp
   * `inactiveSince` (None is `null`), whether the "you went idle" prompt is
   * open, the logged-in `username`, and the save requests made so far.
   */
  datatype Model = Model(
    progress: Progress,
    inactiveSince: Option<int>,
    modalOpen: bool,
    username: Option<string>,
    flushes: seq<Flush>)

  /** JavaScript truthiness of `inactiveSince`: `null` and `0` are both false. */
  predicate Truthy(t: Option<int>) {
    t.Some? && t.value != 0
  }

  /** `state.username` is truthy: someone is logged in. */
  predicate SignedIn(m: Model) {
    m.username.Some? && m.username.value != ""
  }

  /** The invariants of the client: a consistent record, and an open prompt has an idle timestamp. */
  predicate Wellformed(m: Model) {
    Consistent(m.progress) && (m.modalOpen ==> Truthy(m.inactiveSince))
  }

  /** The `state` literal the page starts from. */
  const Initial := Model(DefaultProgress(), None, false, None, [])

  /** `saveProgress()`: sends the current snapshot to the server, only when logged in. */
  function SaveProgress(m: Model): (r: Model)
    // only the log grows, by one server request carrying the snapshot, and only for a logged-in user
    ensures r.(flushes := m.flushes) == m
    ensures SignedIn(m) ==> r.flushes == m.flushes + [Flush(Remote, m.progress)]
    ensures !SignedIn(m) ==> r == m
  {
    if SignedIn(m) then m.(flushes := m.flushes + [Flush(Remote, m.progress)]) else m
  }

  /** `saveState()`: writes the current snapshot to the browser store. */
  function SaveState(m: Model): (r: Model)
    ensures r.(flushes := m.flushes) == m
    ensures r.flushes == m.flushes + [Flush(Local, m.progress)]
  {
    m.(flushes := m.flushes + [Flush(Local, m.progress)])
  }

  /** The new state after `checkInactivity` and the value it returns. */
  datatype Checked = Checked(state: Model, distracted: bool)

  /** `checkInactivity()` at time `now` with the page hidden or not. */
  function CheckInactivity(m: Model, now: int, hidden: bool): (c: Checked)
    ensures c.state.username == m.username
    // the idle timestamp is taken on the first hidden check and never moved by later checks
    ensures Truthy(m.inactiveSince) ==> c.state.inactiveSince == m.inactiveSince
    ensures !Truthy(m.inactiveSince) ==> c.state.inactiveSince == (if hidden then Some(now) else m.inactiveSince)
    // with no (truthy) timestamp nothing happens and the answer is "not distracted"
    ensures !Truthy(c.state.inactiveSince) ==> c == Checked(m.(inactiveSince := c.state.inactiveSince), false)
    // while the prompt is closed: distracted exactly when 60 s have passed since the timestamp
    ensures !m.modalOpen ==>
      (c.distracted <==> Truthy(c.state.inactiveSince) && now - c.state.inactiveSince.value >= InactivityLimitMs)
    // once the prompt is open, every check reports "distracted" and changes nothing
    ensures m.modalOpen && Truthy(m.inactiveSince) ==> c == Checked(m, true)
    // the prompt opens on the first distracted answer; that one edge counts one episode
    ensures c.state.modalOpen == (m.modalOpen || c.distracted)
    ensures c.state.progress ==
      m.progress.(distractionCount := m.progress.distractionCount + (if !m.modalOpen && c.distracted then 1 else 0))
    // and that edge asks both tiers to save the new snapshot
    ensures c.state.flushes == m.flushes +
      if !m.modalOpen && c.distracted
      then (if SignedIn(m) then [Flush(Remote, c.state.progress)] else []) + [Flush(Local, c.state.progress)]
      else []
    ensures Wellformed(m) ==> Wellformed(c.state)
  {
    var m1 := if hidden && !Truthy(m.inactiveSince) then m.(inactiveSince := Some(now)) else m;
    if !Truthy(m1.inactiveSince) then Checked(m1, false)
    else if now - m1.inactiveSince.value >= InactivityLimitMs && !m1.modalOpen then
      var m2 := m1.(progress := m1.progress.(distractionCount := m1.progress.distractionCount + 1),
                    modalOpen := true);
      Checked(SaveState(SaveProgress(m2)), true)
    else Checked(m1, m1.modalOpen)
  }

  /** `onActiveSignal()`: any user activity ends the idle episode and closes the prompt. */
  function OnActiveSignal(m: Model): (r: Model)
    ensures r.inactiveSince == None && !r.modalOpen
    ensures r.progress == m.progress && r.username == m.username && r.flushes == m.flushes
    // afterwards a visible check reports "not distracted", and a hidden one starts a new episode
    ensures forall now :: !CheckInactivity(r, now, false).distracted
    ensures forall now :: now != 0 ==> CheckInactivity(r, now, true).state.inactiveSince == Some(now)
    ensures Wellformed(m) ==> Wellformed(r)
  {
    m.(inactiveSince := None, modalOpen := false)
  }

  /** `tick()` at time `now`, the page hidden or not. */
  function Tick(m: Model, now: int, hidden: bool): (r: Model)
    // logged out, nothing advances
    ensures !SignedIn(m) ==> r == m
    // logged in, every tick is one more second of screen time
    ensures SignedIn(m) ==> r.progress.totalSeconds == m.progress.totalSeconds + 1
    // focus time and points advance exactly when the detector says "not distracted"
    ensures SignedIn(m) ==>
      var d := CheckInactivity(m, now, hidden).distracted;
      && r.progress.focusSeconds == m.progress.focusSeconds + (if d then 0 else 1)
      && r.progress.points == m.progress.points + (if d then 0.0 else PointsPerFocusSecond)
    ensures SignedIn(m) ==>
      var c := CheckInactivity(m, now, hidden).state;
      && r.progress.distractionCount == c.progress.distractionCount
      && r.inactiveSince == c.inactiveSince && r.modalOpen == c.modalOpen
    ensures r.progress.owned == m.progress.owned && r.progress.equipped == m.progress.equipped
    ensures r.username == m.username
    ensures Wellformed(m) ==> Wellformed(r)
  {
    if !SignedIn(m) then m
    else
      var m1 := m.(progress := m.progress.(totalSeconds := m.progress.totalSeconds + 1));
      var c := CheckInactivity(m1, now, hidden);
      assert c.distracted == CheckInactivity(m, now, hidden).distracted;
      var m2 := if c.distracted then c.state
                else c.state.(progress := c.state.progress.(
                       focusSeconds := c.state.progress.focusSeconds + 1,
                       points := c.state.progress.points + PointsPerFocusSecond));
      // JavaScript's `%` truncates, but a remainder is zero in both readings alike
      if m2.progress.totalSeconds % 10 == 0 then SaveProgress(m2) else m2
  }

  /**
   * The save requests of one tick: those the detector makes on the record
   * with the second counted, then one more to the server, carrying the new
   * snapshot, every tenth second.
   */
  lemma TickSaves(m: Model, now: int, hidden: bool)
    requires SignedIn(m)
    ensures var r, c := Tick(m, now, hidden), CheckInactivity(m.(progress := m.progress.(totalSeconds := m.progress.totalSeconds + 1)), now, hidden).state;
      r.flushes == c.flushes + (if r.progress.totalSeconds % 10 == 0 then [Flush(Remote, r.progress)] else [])
    ensures m.flushes <= Tick(m, now, hidden).flushes
  {
  }

  /** `buyItem(item)`: the purchase, then a save request to the server when it went ahead. */
  function BuyItem(m: Model, item: Item): (r: Model)
    ensures r.progress == Purchase(m.progress, item)
    ensures !CanBuy(m.progress, item) ==> r == m
    // a purchase that goes ahead asks the server to save the new snapshot
    ensures r.flushes == m.flushes + (if CanBuy(m.progress, item) && SignedIn(m) then [Flush(Remote, r.progress)] else [])
    ensures r.inactiveSince == m.inactiveSince && r.modalOpen == m.modalOpen && r.username == m.username
    ensures Wellformed(m) ==> Wellformed(r)
  {
    if !CanBuy(m.progress, item) then m
    else SaveProgress(m.(progress := Purchase(m.progress, item)))
  }

  /** `equipItem(item)`: the equip, then save requests to both tiers when the item is owned. */
  function EquipItem(m: Model, item: Item): (r: Model)
    ensures r.progress == Equip(m.progress, item)
    ensures !OwnItem(m.progress, item.id) ==> r == m
    // an equip of an owned item asks the server (when logged in) and the browser store to save
    ensures r.flushes == m.flushes +
      if OwnItem(m.progress, item.id)
      then (if SignedIn(m) then [Flush(Remote, r.progress)] else []) + [Flush(Local, r.progress)]
      else []
    ensures r.inactiveSince == m.inactiveSince && r.modalOpen == m.modalOpen && r.username == m.username
    ensures Wellformed(m) ==> Wellformed(r)
  {
    if !OwnItem(m.progress, item.id) then m
    else SaveState(SaveProgress(m.(progress := Equip(m.progress, item))))
  }

  /** What can happen while a user is logged in. */
  datatype Event =
    | TickEvent(now: int, hidden: bool)
    | ActivityEvent
    | BuyEvent(item: Item)
    | EquipEvent(item: Item)

  function Step(m: Model, e: Event): Model {
    match e
    case TickEvent(now, hidden) => Tick(m, now, hidden)
    case ActivityEvent => OnActiveSignal(m)
    case BuyEvent(item) => BuyItem(m, item)
    case EquipEvent(item) => EquipItem(m, item)
  }

  function Run(m: Model, events: seq<Event>): Model
    decreases |events|
  {
    if events == [] then m else Run(Step(m, events[0]), events[1..])
  }

  /** Every reachable state keeps the invariants: in particular focus time never exceeds screen time. */
  lemma {:induction false} RunWellformed(m: Model, events: seq<Event>)
    requires Wellformed(m)
    ensures Wellformed(Run(m, events))
    ensures Run(m, events).progress.focusSeconds <= Run(m, events).progress.totalSeconds
    decreases |events|
  {
    if events != [] {
      RunWellformed(Step(m, events[0]), events[1..]);
    }
  }

  lemma {:induction false} RunAppend(m: Model, a: seq<Event>, b: seq<Event>)
    ensures Run(m, a + b) == Run(Run(m, a), b)
    decreases |a|
  {
    if a != [] {
      assert (a + b)[0] == a[0];
      assert (a + b)[1..] == a[1..] + b;
      RunAppend(Step(m, a[0]), a[1..], b);
    } else {
      assert a + b == b;
    }
  }

  /** One tick per timestamp, with the page visible. */
  function VisibleTicks(times: seq<int>): seq<Event>
    decreases |times|
  {
    if times == [] then [] else [TickEvent(times[0], false)] + VisibleTicks(times[1..])
  }

  /** With the page visible and no idle episode open, every tick is a focused second worth 0.5 points. */
  lemma {:induction false} VisibleTicksAreFocused(m: Model, times: seq<int>)
    requires SignedIn(m) && !Truthy(m.inactiveSince) && !m.modalOpen
    ensures var r := Run(m, VisibleTicks(times));
      && r.progress.totalSeconds == m.progress.totalSeconds + |times|
      && r.progress.focusSeconds == m.progress.focusSeconds + |times|
      && r.progress.points == m.progress.points + |times| as real * PointsPerFocusSecond
      && r.progress.distractionCount == m.progress.distractionCount
      && r.username == m.username && r.inactiveSince == m.inactiveSince && !r.modalOpen
    decreases |times|
  {
    if times != [] {
      var evs := VisibleTicks(times);
      assert evs[0] == TickEvent(times[0], false) && evs[1..] == VisibleTicks(times[1..]);
      VisibleTicksAreFocused(Tick(m, times[0], false), times[1..]);
    }
  }

  /** From a fresh login, ten focused ticks give 10 s of screen time, 10 s of focus and 5 points. */
  lemma TenFocusedTicks(user: string, times: seq<int>)
    requires user != "" && |times| == 10
    ensures var r := Run(Initial.(username := Some(user)), VisibleTicks(times));
      r.progress.totalSeconds == 10 && r.progress.focusSeconds == 10 && r.progress.points == 5.0
  {
    VisibleTicksAreFocused(Initial.(username := Some(user)), times);
  }

  /** One tick per second from `t0 + from` s to `t0 + to` s (exclusive), with the page hidden. */
  function HiddenTicks(t0: int, from: nat, to: nat): seq<Event>
    decreases to - from
  {
    if to <= from then [] else [TickEvent(t0 + TickMs * from, true)] + HiddenTicks(t0, from + 1, to)
  }

  /** How many of the seconds `from .. to - 1` of a hidden stretch come before the 60 s limit. */
  function FocusedBefore(from: nat, to: nat): nat {
    if to <= from || from >= 60 then 0 else (if to < 60 then to else 60) - from
  }

  /** One hidden tick `k` seconds into a stretch that started at `t0`. */
  lemma HiddenTick(m: Model, t0: int, k: nat)
    requires SignedIn(m) && t0 != 0
    requires if k == 0 then !Truthy(m.inactiveSince) else m.inactiveSince == Some(t0)
    requires m.modalOpen == (k > 60)
    ensures var r := Tick(m, t0 + TickMs * k, true);
      && r.progress.totalSeconds == m.progress.totalSeconds + 1
      && r.progress.focusSeconds == m.progress.focusSeconds + (if k < 60 then 1 else 0)
      && r.progress.points == m.progress.points + (if k < 60 then PointsPerFocusSecond else 0.0)
      && r.progress.distractionCount == m.progress.distractionCount + (if k == 60 then 1 else 0)
      && r.username == m.username
      && r.inactiveSince == Some(t0) && r.modalOpen == (k >= 60)
  {
    var c := CheckInactivity(m, t0 + TickMs * k, true);
    assert c.state.inactiveSince == Some(t0);
    assert c.distracted <==> k >= 60;
  }

  /** A hidden stretch runs its first tick, then the rest. */
  lemma HiddenTicksFirst(m: Model, t0: int, from: nat, to: nat)
    requires from < to
    ensures Run(m, HiddenTicks(t0, from, to)) == Run(Step(m, TickEvent(t0 + TickMs * from, true)), HiddenTicks(t0, from + 1, to))
  {
    var e := TickEvent(t0 + TickMs * from, true);
    assert HiddenTicks(t0, from, to) == [e] + HiddenTicks(t0, from + 1, to);
    RunCons(m, e, HiddenTicks(t0, from + 1, to));
  }

  lemma RunCons(m: Model, e: Event, rest: seq<Event>)
    ensures Run(m, [e] + rest) == Run(Step(m, e), rest)
  {
    assert ([e] + rest)[0] == e && ([e] + rest)[1..] == rest;
  }

  /** The state of the detector part-way through a hidden stretch that started at `t0`. */
  lemma {:induction false} HiddenStretch(m: Model, t0: int, from: nat, to: nat)
    decreases to - from
    requires SignedIn(m) && t0 != 0 && from <= to
    requires if from == 0 then !Truthy(m.inactiveSince) else m.inactiveSince == Some(t0)
    requires m.modalOpen == (from > 60)
    ensures var r := Run(m, HiddenTicks(t0, from, to));
      && r.progress.totalSeconds == m.progress.totalSeconds + to - from
      && r.progress.focusSeconds == m.progress.focusSeconds + FocusedBefore(from, to)
      && r.progress.points == m.progress.points + FocusedBefore(from, to) as real * PointsPerFocusSecond
      && r.progress.distractionCount == m.progress.distractionCount + (if from <= 60 < to then 1 else 0)
      && r.username == m.username
      && (from < to ==> r.inactiveSince == Some(t0) && r.modalOpen == (to > 60))
  {
    if from < to {
      var m' := Step(m, TickEvent(t0 + TickMs * from, true));
      HiddenTicksFirst(m, t0, from, to);
      HiddenTick(m, t0, from);
      HiddenStretch(m', t0, from + 1, to);
      assert FocusedBefore(from, to) == (if from < 60 then 1 else 0) + FocusedBefore(from + 1, to);
    }
  }

  /**
   * Hidden for `n` seconds from an active state: the distraction count rises
   * by exactly one once the 60 s limit is crossed and never again while the
   * page stays hidden; only the first 60 seconds earn focus time.
   */
  lemma OneDistractionPerEpisode(m: Model, t0: int, n: nat)
    requires SignedIn(m) && t0 != 0 && !Truthy(m.inactiveSince) && !m.modalOpen
    ensures var r := Run(m, HiddenTicks(t0, 0, n));
      && r.progress.distractionCount == m.progress.distractionCount + (if n > 60 then 1 else 0)
      && r.progress.totalSeconds == m.progress.totalSeconds + n
      && r.progress.focusSeconds == m.progress.focusSeconds + (if n < 60 then n else 60)
  {
    HiddenStretch(m, t0, 0, n);
  }

  /** Hidden for 65 s: one distraction, 65 s of screen time, 60 s of focus and 30 points. */
  lemma SixtyFiveHiddenSeconds(m: Model, t0: int)
    requires SignedIn(m) && t0 != 0 && !Truthy(m.inactiveSince) && !m.modalOpen
    ensures var r := Run(m, HiddenTicks(t0, 0, 65));
      && r.progress.distractionCount == m.progress.distractionCount + 1
      && r.progress.totalSeconds == m.progress.totalSeconds + 65
      && r.progress.focusSeconds == m.progress.focusSeconds + 60
      && r.progress.points == m.progress.points + 30.0
  {
    HiddenStretch(m, t0, 0, 65);
  }

  /** An activity signal ends the episode: a second long hidden stretch counts a second distraction. */
  lemma TwoEpisodes(m: Model, t0: int, t1: int)
    requires SignedIn(m) && t0 != 0 && t1 != 0 && !Truthy(m.inactiveSince) && !m.modalOpen
    ensures Run(m, HiddenTicks(t0, 0, 61) + [ActivityEvent] + HiddenTicks(t1, 0, 61)).progress.distractionCount
         == m.progress.distractionCount + 2
  {
    var first := HiddenTicks(t0, 0, 61);
    var second := HiddenTicks(t1, 0, 61);
    HiddenStretch(m, t0, 0, 61);
    var r1 := Run(m, first);
    RunAppend(m, first, [ActivityEvent]);
    var r2 := Run(r1, [ActivityEvent]);
    assert r2 == OnActiveSignal(r1);
    HiddenStretch(r2, t1, 0, 61);
    RunAppend(m, first + [ActivityEvent], second);
  }
}
